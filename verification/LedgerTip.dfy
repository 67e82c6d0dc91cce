/**
 What the last hash of a verified trail fixes: every event after the newest redaction that
 `verify` itself reports of that trail, and nothing further back. A redacted event's `prev` is
 no longer under any digest.
 */
module LedgerTip {
  import opened Wrappers
  import opened AuditLedger
  import opened LedgerRuns
  import opened LedgerVerdicts

  function Depth(h: Hash): nat {
    match h
    case Other(_) => 0
    case Sha(content) => 1 + match content.prev case None => 0 case Some(p) => Depth(p)
  }

  function DepthOf(h: Option<Hash>): nat {
    match h case None => 0 case Some(p) => Depth(p)
  }

  function Tip(events: seq<Event>, start: Option<Hash>): Option<Hash> {
    if events == [] then start else events[|events| - 1].hash
  }

  ghost predicate Unmarked(events: seq<Event>) {
    forall i :: 0 <= i < |events| ==> events[i].content.marker.None?
  }

  lemma FrontStays(events: seq<Event>, start: Option<Hash>)
    requires events != [] && Linked(events, start) && Attested(events)
    ensures var front := events[..|events| - 1];
            Linked(front, start) && Attested(front) && events[|events| - 1].content.prev == Tip(front, start)
  {
    var front := events[..|events| - 1];
    assert events == front + [events[|events| - 1]];
    LinkedSnoc(front, events[|events| - 1], start);
  }

  /** A chain never returns to the hash it started from. */
  lemma {:induction false} ChainsGoDeeper(events: seq<Event>, start: Option<Hash>)
    requires Linked(events, start) && Attested(events) && Unmarked(events)
    ensures DepthOf(Tip(events, start)) == DepthOf(start) + |events|
  {
    if events != [] {
      FrontStays(events, start);
      ChainsGoDeeper(events[..|events| - 1], start);
    }
  }

  /** The last `k` of a sequence. */
  function Last<T>(s: seq<T>, k: nat): seq<T>
    requires k <= |s|
  {
    s[|s| - k..]
  }

  lemma LastSnoc(events: seq<Event>, k: nat)
    requires 0 < k <= |events|
    ensures var n := |events| - 1;
            && Last(events, k) == Last(events[..n], k - 1) + [events[n]]
            && events[..n][..n - (k - 1)] == events[..|events| - k]
            && (Unmarked(Last(events, k)) ==> Unmarked(Last(events[..n], k - 1)) && events[n].content.marker.None?)
  {
    var n := |events| - 1;
    assert Last(events, k)[k - 1] == events[n];
    assert forall i :: 0 <= i < k - 1 ==> Last(events[..n], k - 1)[i] == Last(events, k)[i];
  }

  /** Going back from an equal tip, events agree for as long as neither side is redacted. */
  lemma {:induction false} TipFixesSuffix(a: seq<Event>, b: seq<Event>, start: Option<Hash>, k: nat)
    requires Linked(a, start) && Attested(a) && Linked(b, start) && Attested(b)
    requires k <= |a| && k <= |b| && Unmarked(Last(a, k)) && Unmarked(Last(b, k))
    requires Tip(a, start) == Tip(b, start)
    ensures Last(a, k) == Last(b, k)
    ensures Tip(a[..|a| - k], start) == Tip(b[..|b| - k], start)
    decreases k
  {
    if k == 0 {
      assert a[..|a|] == a && b[..|b|] == b;
    } else {
      var m, n := |a| - 1, |b| - 1;
      LastSnoc(a, k);
      LastSnoc(b, k);
      FrontStays(a, start);
      FrontStays(b, start);
      TipFixesSuffix(a[..m], b[..n], start, k - 1);
    }
  }

  lemma LastAll(events: seq<Event>)
    ensures Last(events, |events|) == events
  {
  }

  lemma TipFixesEverything(a: seq<Event>, b: seq<Event>, start: Option<Hash>)
    requires Linked(a, start) && Attested(a) && Unmarked(a)
    requires Linked(b, start) && Attested(b) && Unmarked(b)
    requires Tip(a, start) == Tip(b, start)
    ensures a == b
  {
    ChainsGoDeeper(a, start);
    ChainsGoDeeper(b, start);
    LastAll(a);
    LastAll(b);
    TipFixesSuffix(a, b, start, |a|);
  }

  /** The newest hash on disk. */
  function NewestHash(t: Trail): Option<Hash> {
    Tip(Readable(Lines(t.parts)), Base(t.checkpoint).hash)
  }

  ghost predicate NoRedactions(t: Trail) {
    Unmarked(Readable(Lines(t.parts)))
  }

  /** A chain as it was first written, nothing redacted. */
  ghost predicate Original(events: seq<Event>, start: Option<Hash>) {
    Unmarked(events) && Linked(events, start) && Attested(events)
  }

  predicate EndsIn(lines: seq<Line>, last: seq<Line>) {
    |last| <= |lines| && lines[|lines| - |last|..] == last
  }

  /** `verify` reports no redaction among the last `k` lines. */
  ghost predicate NoneReported(t: Trail, k: nat) {
    forall r :: r in Verified(t).redactions ==> r.at < |Lines(t.parts)| - k
  }

  lemma ReportedAreMarks(lines: seq<Line>, k: nat)
    requires AllReadable(lines)
    ensures (forall r :: r in Redactions(lines) ==> r.at < |lines| - k) <==>
            (forall i :: 0 <= i < |lines| && |lines| - k <= i ==> lines[i].event.content.marker.None?)
  {
    RedactionsAreMarks(lines);
    forall i | 0 <= i < |lines| && |lines| - k <= i && lines[i].event.content.marker.Some?
      ensures Redaction(i, lines[i].event.content.seqNo, lines[i].event.content.marker.value) in Redactions(lines)
    {
    }
  }

  lemma LastIsUnmarked(events: seq<Event>, k: nat)
    requires k <= |events| && forall i :: |events| - k <= i < |events| ==> events[i].content.marker.None?
    ensures Unmarked(Last(events, k))
  {
  }

  lemma UnmarkedEndsAgree(original: seq<Event>, events: seq<Event>, start: Option<Hash>, k: nat)
    requires Original(original, start) && k <= |original|
    requires Linked(events, start) && Attested(events) && Tip(events, start) == Tip(original, start)
    requires forall i :: 0 <= i < |events| && |events| - k <= i ==> events[i].content.marker.None?
    ensures k <= |events| && Last(events, k) == Last(original, k)
  {
    if |events| < k {
      TipFixesEverything(original, events, start);
    } else {
      LastIsUnmarked(events, k);
      LastIsUnmarked(original, k);
      TipFixesSuffix(original, events, start, k);
    }
  }

  lemma TailIsUnmarked(lines: seq<Line>, k: nat)
    requires AllReadable(lines)
    requires forall i :: 0 <= i < |lines| && |lines| - k <= i ==> lines[i].event.content.marker.None?
    ensures var events := Readable(lines);
            forall i :: 0 <= i < |events| && |events| - k <= i ==> events[i].content.marker.None?
  {
    ReadableAll(lines);
  }

  lemma LastIsEnd(lines: seq<Line>, k: nat)
    requires k <= |lines|
    ensures EndsIn(lines, Last(lines, k))
  {
  }

  lemma UnreportedAreOriginal(original: seq<Event>, lines: seq<Line>, start: Option<Hash>, k: nat)
    requires Original(original, start) && k <= |original|
    requires AllReadable(lines) && Linked(Readable(lines), start) && Attested(Readable(lines))
    requires Tip(Readable(lines), start) == Tip(original, start)
    requires forall i :: 0 <= i < |lines| && |lines| - k <= i ==> lines[i].event.content.marker.None?
    ensures EndsIn(lines, Records(Last(original, k)))
  {
    TailIsUnmarked(lines, k);
    UnmarkedEndsAgree(original, Readable(lines), start, k);
    LastRecords(lines, k);
    LastIsEnd(lines, k);
  }

  lemma OriginalIsUnmarked(original: seq<Event>, lines: seq<Line>, k: nat, i: nat)
    requires Unmarked(original) && k <= |original| && EndsIn(lines, Records(Last(original, k)))
    requires i < |lines| && |lines| - k <= i
    ensures lines[i].Record? && lines[i].event.content.marker.None?
  {
    var j := i - (|lines| - k);
    assert lines[i] == lines[|lines| - k..][j] == Record(original[|original| - k + j]);
  }

  /** What a kept newest hash and a passing `verify` are worth. Of any trail that has them, the
      last `k` lines are the events as they were first hashed if and only if that trail's own
      report names no redaction among them. */
  lemma TipFixesExactly(original: seq<Event>, other: Trail, k: nat)
    requires Original(original, Base(other.checkpoint).hash) && k <= |original|
    requires Verified(other).ok && NewestHash(other) == Tip(original, Base(other.checkpoint).hash)
    ensures EndsIn(Lines(other.parts), Records(Last(original, k))) <==> NoneReported(other, k)
  {
    var lines := Lines(other.parts);
    VerifiedExactly(other);
    ReportedAreMarks(lines, k);
    if NoneReported(other, k) {
      UnreportedAreOriginal(original, lines, Base(other.checkpoint).hash, k);
    } else if EndsIn(lines, Records(Last(original, k))) {
      forall i | 0 <= i < |lines| && |lines| - k <= i ensures lines[i].event.content.marker.None? {
        OriginalIsUnmarked(original, lines, k, i);
      }
    }
  }

  lemma {:induction false} UnmarkedReportsNothing(lines: seq<Line>)
    requires AllReadable(lines) && Unmarked(Readable(lines))
    ensures Redactions(lines) == []
  {
    ReadableAll(lines);
    if lines != [] {
      var n := |lines| - 1;
      ReadableAll(lines[..n]);
      assert lines[n].event == Readable(lines)[n];
      assert forall i :: 0 <= i < n ==> Readable(lines[..n])[i] == Readable(lines)[i];
      UnmarkedReportsNothing(lines[..n]);
    }
  }

  /** So among trails with its checkpoint and newest hash, an unredacted trail is the only one
      that `verify` passes without reporting a redaction: any edit, insertion, deletion or
      reordering that keeps the newest hash is found, or shows as a redaction nobody made. */
  lemma TamperingIsFound(genuine: Trail, other: Trail)
    requires Verified(genuine).ok && NoRedactions(genuine)
    requires genuine.checkpoint == other.checkpoint && NewestHash(genuine) == NewestHash(other)
    ensures Verified(other).ok && Verified(other).redactions == [] <==> Lines(other.parts) == Lines(genuine.parts)
  {
    var a, b := Lines(genuine.parts), Lines(other.parts);
    VerifiedExactly(genuine);
    VerifiedExactly(other);
    ReadableAll(a);
    AllRecords(a);
    if Verified(other).ok && Verified(other).redactions == [] {
      ReportedAreMarks(b, |b|);
      ReadableAll(b);
      AllRecords(b);
      TipFixesEverything(Readable(a), Readable(b), Base(genuine.checkpoint).hash);
    } else if b == a {
      UnmarkedReportsNothing(a);
    }
  }

  // ----- runs have originals

  /** What each event was when its hash was taken. */
  ghost function Originals(events: seq<Event>): seq<Event>
    requires forall i :: 0 <= i < |events| ==> Sealed(events[i])
  {
    seq(|events|, i requires 0 <= i < |events| && Sealed(events[i]) => Event(events[i].hash.value.content, events[i].hash))
  }

  /** The original of an event says the same of the chain. */
  ghost predicate OriginalOf(original: Event, e: Event) {
    && original.hash == e.hash == Some(Sha(original.content))
    && original.content.marker.None? && original.content.prev == e.content.prev
  }

  lemma {:induction false} OriginalsChain(originals: seq<Event>, events: seq<Event>, start: Option<Hash>)
    requires |originals| == |events| && Linked(events, start)
    requires forall i :: 0 <= i < |events| ==> OriginalOf(originals[i], events[i])
    ensures Linked(originals, start) && Attested(originals) && Tip(originals, start) == Tip(events, start)
  {
    if events != [] {
      var n := |events| - 1;
      var front, before := events[..n], originals[..n];
      assert events == front + [events[n]] && originals == before + [originals[n]];
      LinkedSnoc(front, events[n], start);
      assert OriginalOf(originals[n], events[n]);
      OriginalsChain(before, front, start);
      LinkedSnoc(before, originals[n], start);
    }
  }

  lemma OriginalsAreOriginal(events: seq<Event>, start: Option<Hash>)
    requires forall i :: 0 <= i < |events| ==> Sealed(events[i])
    requires Linked(events, start)
    ensures Original(Originals(events), start) && Tip(Originals(events), start) == Tip(events, start)
  {
    var originals := Originals(events);
    forall i | 0 <= i < |events| ensures OriginalOf(originals[i], events[i]) {
      assert Sealed(events[i]);
    }
    OriginalsChain(originals, events, start);
    assert Unmarked(originals) by {
      forall i | 0 <= i < |events| ensures originals[i].content.marker.None? {
        assert OriginalOf(originals[i], events[i]);
      }
    }
  }

  lemma RunsHaveOriginals(actions: seq<Action>)
    requires Verified(Run(START, actions).trail).ok
    ensures var t := Run(START, actions).trail;
            var events := Readable(Lines(t.parts));
            && (forall i :: 0 <= i < |events| ==> Sealed(events[i]))
            && Original(Originals(events), Base(t.checkpoint).hash)
            && Tip(Originals(events), Base(t.checkpoint).hash) == NewestHash(t)
  {
    var t := Run(START, actions).trail;
    RunKeeps(START, actions);
    VerifiedExactly(t);
    OriginalsAreOriginal(Readable(Lines(t.parts)), Base(t.checkpoint).hash);
  }

  /** For the trail of any run, redacted or not, and any trail somebody puts in its place. */
  lemma TipOfRunFixesExactly(actions: seq<Action>, other: Trail, k: nat)
    requires Verified(Run(START, actions).trail).ok && Verified(other).ok
    requires other.checkpoint == Run(START, actions).trail.checkpoint
    requires NewestHash(other) == NewestHash(Run(START, actions).trail)
    requires k <= |Readable(Lines(Run(START, actions).trail.parts))|
    ensures var events := Readable(Lines(Run(START, actions).trail.parts));
            && (forall i :: 0 <= i < |events| ==> Sealed(events[i]))
            && (EndsIn(Lines(other.parts), Records(Last(Originals(events), k))) <==> NoneReported(other, k))
  {
    RunsHaveOriginals(actions);
    TipFixesExactly(Originals(Readable(Lines(Run(START, actions).trail.parts))), other, k);
  }

  // ----- what a redaction lets through

  /** A redacted event cuts that proof. Whatever stood before it can be dropped and its `prev`
      set to the start of the chain: the newest hash is the same and `verify` passes, as long as
      the redactions that remain keep their records. */
  lemma RedactedEventCutsTheChain(t: Trail, i: nat, day: int)
    requires Verified(t).ok
    requires i < |Lines(t.parts)| && Lines(t.parts)[i].Record? && Lines(t.parts)[i].event.content.marker.Some?
    requires Accounted(Shortened(t, i))
    ensures Stands(t, i, day)
  {
    var lines, start := Lines(t.parts), Base(t.checkpoint).hash;
    var rest := Shortened(t, i);
    var shorter := Trail([Part(day, rest, false)], t.checkpoint);
    assert Lines(shorter.parts) == rest by { assert shorter.parts[1..] == []; }
    VerifiedExactly(t);
    VerifiedExactly(shorter);
    AllRecords(lines);
    var events := Readable(lines);
    CutRecords(events, i, start);
    CutStaysLinked(events, i, start);
  }

  /** Without its first `i` lines the trail still passes, with the same newest hash. */
  ghost predicate Stands(t: Trail, i: nat, day: int)
    requires i < |Lines(t.parts)| && Lines(t.parts)[i].Record?
  {
    var shorter := Trail([Part(day, Shortened(t, i), false)], t.checkpoint);
    Verified(shorter).ok && NewestHash(shorter) == NewestHash(t) && |Lines(shorter.parts)| == |Lines(t.parts)| - i
  }

  lemma CutIsAccounted(lines: seq<Line>, rest: seq<Line>, i: nat, p: nat)
    requires AllReadable(lines) && MarksKept(lines, {}) && i < |lines|
    requires |rest| == |lines| - i && rest[1..] == lines[i + 1..] && rest[0].Record?
    requires rest[0].event.content == lines[i].event.content.(prev := rest[0].event.content.prev)
    requires p < |rest| && rest[p].event.content.marker.Some? && rest[p].event.content.marker.value != {}
    ensures AccountedFor(rest, rest[p].event.content)
  {
    var c := rest[p].event.content;
    assert forall q :: 0 < q < |rest| ==> rest[q] == rest[1..][q - 1] == lines[i + q];
    assert lines[i + p].event.content.seqNo == c.seqNo && lines[i + p].event.content.marker == c.marker;
    forall f | f in c.marker.value ensures Covered(rest, c.seqNo, f) {
      assert CoveredAfter(lines, i + p, c.seqNo, f);
      var q :| i + p < q < |lines| && (lines[q].Unreadable? || Explains(lines[q], c.seqNo, f));
      assert Explains(rest[q - i], c.seqNo, f);
    }
    CoveredIsAccounted(rest, c);
  }

  /** They always do keep them: records follow the events they explain. So over every run whose
      writes and redactions were finished, every redacted event is such a place. */
  lemma EveryRedactionCuts(actions: seq<Action>, i: nat, day: int)
    requires var w := Run(START, actions);
             && AllReadable(Lines(w.trail.parts)) && Aligned(w.trail) && w.half == {}
             && i < |Lines(w.trail.parts)| && Lines(w.trail.parts)[i].event.content.marker.Some?
    ensures Stands(Run(START, actions).trail, i, day)
  {
    var w := Run(START, actions);
    var lines, rest := Lines(w.trail.parts), Shortened(w.trail, i);
    RunKeeps(START, actions);
    QuietRunsVerify(actions);
    ReadableAll(lines);
    CutStaysReadable(lines, rest, i);
    forall p | 0 <= p < |rest| && rest[p].Record? && rest[p].event.content.marker.Some?
      ensures AccountedFor(rest, rest[p].event.content)
    {
      assert Sealed(Readable(lines)[i + p]);
      CutIsAccounted(lines, rest, i, p);
    }
    RedactedEventCutsTheChain(w.trail, i, day);
  }

  lemma CutStaysReadable(lines: seq<Line>, rest: seq<Line>, i: nat)
    requires AllReadable(lines) && i < |lines| && |rest| == |lines| - i && rest[1..] == lines[i + 1..]
    requires rest[0].Record? && rest[0].event.content.marker == lines[i].event.content.marker
    ensures AllReadable(rest)
    ensures forall p :: 0 <= p < |rest| ==> rest[p].event.content.marker == lines[i + p].event.content.marker
  {
    assert forall q :: 0 < q < |rest| ==> rest[q] == rest[1..][q - 1] == lines[i + q];
  }

  function RedactOne(): seq<Action> {
    [Append("t", "received", map[]), Append("u", "completed", map["name" := Text("x")]),
     RedactRewrite(2, {"name"}), RedactRecord(2, {"name"}, "v", "asked for", "admin")]
  }

  lemma TwoAppended() returns (first: Event, second: Event)
    ensures first.content.seqNo == 1 && second.content.seqNo == 2 && second.content.body == map["name" := Text("x")]
    ensures second.content.kind == "completed" && second.content.marker.None?
    ensures Next(Next(START, RedactOne()[0]), RedactOne()[1]) ==
            World(Trail([Part(0, [Record(first), Record(second)], false)], None), 0, 0, {})
  {
    var body, none: map<string, Value> := map["name" := Text("x")], map[];
    assert body.Keys == {"name"} && none.Keys == {};
    first := NewEvent(Position(0, None), true, "t", "received", map[]);
    assert Tail(START.trail) == Position(0, None);
    var w1 := Next(START, RedactOne()[0]);
    assert w1.trail == Trail([Part(0, [Record(first)], false)], None) by { assert [] + [Part(0, [Record(first)], false)] == [Part(0, [Record(first)], false)]; }
    LinesOfOne(w1.trail.parts[0]);
    ReadableOfOne(Record(first));
    second := NewEvent(Tail(w1.trail), true, "u", "completed", body);
    assert [Record(first)] + [Record(second)] == [Record(first), Record(second)];
  }

  lemma SecondIsEmptied(first: Event, second: Event, w: World)
    requires first.content.seqNo == 1 && second.content.seqNo == 2 && second.content.body == map["name" := Text("x")]
    requires second.content.kind == "completed"
    requires w == World(Trail([Part(0, [Record(first), Record(second)], false)], None), 0, 0, {})
    ensures var marked := Event(Emptied(second.content, {"name"}), second.hash);
            Next(w, RedactRewrite(2, {"name"})) ==
            World(Trail([Part(0, [Record(first), Record(marked)], false)], None), 0, 0, {(2, "name")})
  {
    var lines := [Record(first), Record(second)];
    assert lines[1..] == [Record(second)];
    assert IndexOf([Record(second)], 2) == Some(0) && IndexOf(lines, 2) == Some(1);
    assert PartOf(w.trail.parts, 2) == Some(0);
    assert second.content.body.Keys == {"name"};
    assert RedactRefusal(w.trail.parts, 2, {"name"}).None?;
    assert Pairs(2, {"name"}) == {(2, "name")};
    var marked := Event(Emptied(second.content, {"name"}), second.hash);
    assert lines[1 := Record(marked)] == [Record(first), Record(marked)];
    assert Rewritten(w.trail.parts, 2, {"name"})[0] == Part(0, [Record(first), Record(marked)], false);
    assert Rewritten(w.trail.parts, 2, {"name"}) == [Part(0, [Record(first), Record(marked)], false)];
  }

  lemma RecordIsAdded(first: Event, marked: Event, w: World)
    requires w == World(Trail([Part(0, [Record(first), Record(marked)], false)], None), 0, 0, {(2, "name")})
    ensures var w' := Next(w, RedactOne()[3]);
            && w'.half == {} && w'.trail.checkpoint.None?
            && Lines(w'.trail.parts) == [Record(first), Record(marked), Record(NewEvent(Tail(w.trail), true, "v", REDACTED_EVENT, RecordBody(2, {"name"}, "asked for", "admin")))]
  {
    var line := Record(NewEvent(Tail(w.trail), true, "v", REDACTED_EVENT, RecordBody(2, {"name"}, "asked for", "admin")));
    assert Pairs(2, {"name"}) == {(2, "name")};
    LinesOfOne(w.trail.parts[0]);
    LinesAfterSameDay(w.trail.parts, 0, line, true);
    assert [Record(first), Record(marked)] + [line] == [Record(first), Record(marked), line];
  }

  /** One such run: two events, the second redacted and its redaction recorded. Without the first
      line, the trail passes `verify` as before. */
  lemma RedactedRunIsCut()
    ensures var t := Run(START, RedactOne()).trail;
            && |Lines(t.parts)| == 3 && AllReadable(Lines(t.parts)) && Verified(t).ok
            && Lines(t.parts)[1].event.content.marker.Some? && Stands(t, 1, 0)
  {
    var first, second := TwoAppended();
    var w2 := Next(Next(START, RedactOne()[0]), RedactOne()[1]);
    var marked := Event(Emptied(second.content, {"name"}), second.hash);
    SecondIsEmptied(first, second, w2);
    var w3 := Next(w2, RedactOne()[2]);
    var w := Next(w3, RedactOne()[3]);
    RunOfFour(START, RedactOne());
    assert w == Run(START, RedactOne());
    var lines := Lines(w.trail.parts);
    RecordIsAdded(first, marked, w3);
    assert Aligned(w.trail) by { ReadableAll(lines); }
    QuietRunsVerify(RedactOne());
    EveryRedactionCuts(RedactOne(), 1, 0);
  }

  lemma RunOfFour(w: World, a: seq<Action>)
    requires |a| == 4
    ensures Run(w, a) == Next(Next(Next(Next(w, a[0]), a[1]), a[2]), a[3])
  {
    var w1 := Next(w, a[0]);
    assert a[1..][1..] == a[2..] && a[2..][1..] == a[3..] && a[3..][1..] == [];
    assert Run(w, a) == Run(w1, a[1..]) == Run(Next(w1, a[1]), a[2..]);
    var w3 := Next(Next(w1, a[1]), a[2]);
    assert Run(Next(w1, a[1]), a[2..]) == Run(w3, a[3..]);
    assert Run(w3, a[3..]) == Next(w3, a[3]);
  }

  /** And anybody can write such a mark. For every checkpoint and every hash, whatever chain it
      ends, two lines pass `verify` with it as the newest: a record naming an event, and that
      event with any body, marked. Only the report of a redaction tells. */
  lemma ForgedMarkKeepsAnyTip(checkpoint: Option<Checkpoint>, tip: Hash, seqNo: int, kind: string, body: map<string, Value>, field: string, day: int)
    ensures var record := NewEvent(Base(checkpoint), true, "t", REDACTED_EVENT, RecordBody(seqNo, {field}, "r", "a"));
            var marked := Event(Content(seqNo, "u", kind, body, Some({field}), record.hash), Some(tip));
            var forged := Trail([Part(day, [Record(record), Record(marked)], false)], checkpoint);
            && Verified(forged).ok && NewestHash(forged) == Some(tip)
            && Verified(forged).redactions == [Redaction(1, seqNo, {field})]
  {
    var start := Base(checkpoint).hash;
    var record := NewEvent(Base(checkpoint), true, "t", REDACTED_EVENT, RecordBody(seqNo, {field}, "r", "a"));
    var marked := Event(Content(seqNo, "u", kind, body, Some({field}), record.hash), Some(tip));
    var lines := [Record(record), Record(marked)];
    var forged := Trail([Part(day, lines, false)], checkpoint);
    LinesOfOne(forged.parts[0]);
    TwoRecords(record, marked);
    TwoLink(record, marked, start);
    assert Explains(lines[0], seqNo, field);
    assert HasRecord(lines[0], seqNo);
    VerifiedExactly(forged);
  }

  lemma TwoLink(a: Event, b: Event, start: Option<Hash>)
    requires a.content.prev == start && b.content.prev == a.hash
    ensures Linked([a, b], start)
  {
    assert HashBefore([a, b], 0, start) == start && HashBefore([a, b], 1, start) == a.hash;
  }

  lemma TwoRecords(a: Event, b: Event)
    ensures Readable([Record(a), Record(b)]) == [a, b]
    ensures a.content.marker.None? && b.content.marker.Some? ==>
              Redactions([Record(a), Record(b)]) == [Redaction(1, b.content.seqNo, b.content.marker.value)]
  {
    ReadableOfOne(Record(a));
    ReadableSnoc([Record(a)], Record(b));
    assert [Record(a)] + [Record(b)] == [Record(a), Record(b)] && [a] + [b] == [a, b];
    assert [Record(a), Record(b)][..1] == [Record(a)] && [Record(a)][..0] == [];
    assert Redactions([Record(a)]) == if a.content.marker.Some? then [Redaction(0, a.content.seqNo, a.content.marker.value)] else [];
  }

  lemma CutRecords(events: seq<Event>, i: nat, start: Option<Hash>)
    requires i < |events|
    ensures var kept := [Event(events[i].content.(prev := start), events[i].hash)] + events[i + 1..];
            var rest := [Record(kept[0])] + Records(events)[i + 1..];
            AllReadable(rest) && Readable(rest) == kept
  {
    var kept := [Event(events[i].content.(prev := start), events[i].hash)] + events[i + 1..];
    RecordsFrom(events, i + 1);
    RecordsCons(kept[0], events[i + 1..]);
    RecordsRead(kept);
  }

  lemma CutStaysLinked(events: seq<Event>, i: nat, start: Option<Hash>)
    requires Linked(events, start) && Attested(events) && i < |events| && events[i].content.marker.Some?
    ensures var kept := [Event(events[i].content.(prev := start), events[i].hash)] + events[i + 1..];
            Linked(kept, start) && Attested(kept) && Tip(kept, start) == Tip(events, start)
  {
    var kept := [Event(events[i].content.(prev := start), events[i].hash)] + events[i + 1..];
    assert forall j :: 1 <= j < |kept| ==> kept[j] == events[i + j];
    forall j | 0 <= j < |kept| ensures kept[j].content.prev == HashBefore(kept, j, start) {
      if j > 0 {
        assert events[i + j].content.prev == HashBefore(events, i + j, start);
        assert kept[j - 1].hash == events[i + j - 1].hash;
      }
    }
  }

  function Records(events: seq<Event>): seq<Line> {
    seq(|events|, i requires 0 <= i < |events| => Record(events[i]))
  }

  lemma RecordsFrom(events: seq<Event>, i: nat)
    requires i <= |events|
    ensures Records(events)[i..] == Records(events[i..])
  {
  }

  lemma RecordsCons(e: Event, rest: seq<Event>)
    ensures Records([e] + rest) == [Record(e)] + Records(rest)
  {
  }

  lemma {:induction false} RecordsRead(events: seq<Event>)
    ensures AllReadable(Records(events)) && Readable(Records(events)) == events
  {
    if events != [] {
      var n := |events| - 1;
      RecordsRead(events[..n]);
      assert Records(events)[..n] == Records(events[..n]);
    }
  }

  lemma AllRecords(lines: seq<Line>)
    requires AllReadable(lines)
    ensures lines == Records(Readable(lines))
  {
    ReadableAll(lines);
  }

  function Shortened(t: Trail, i: nat): seq<Line>
    requires i < |Lines(t.parts)| && Lines(t.parts)[i].Record?
  {
    var e := Lines(t.parts)[i].event;
    [Record(Event(e.content.(prev := Base(t.checkpoint).hash), e.hash))] + Lines(t.parts)[i + 1..]
  }

  lemma LastRecords(x: seq<Line>, k: nat)
    requires AllReadable(x) && k <= |Readable(x)|
    ensures k <= |x| && Last(x, k) == Records(Last(Readable(x), k))
  {
    AllRecords(x);
    RecordsFrom(Readable(x), |x| - k);
  }
}
