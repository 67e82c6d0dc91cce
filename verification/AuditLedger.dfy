/**
 The hash-chained audit trail as a value: events, day partitions, the trim checkpoint,
 and what each operation does to them.

 SHA-256 over the canonical form of an event is the free constructor `Sha`, so equal
 digests mean equal contents and no digest occurs inside its own content.
 */
module AuditLedger {
  import opened Wrappers

  datatype Value = Text(text: string) | Number(number: int) | Names(names: set<string>)

  // A stored hash is a digest of something, or any other text a file may hold.
  datatype Hash = Sha(content: Content) | Other(text: string)

  // Everything the digest covers: the whole event except its `hash`.
  datatype Content = Content(
    seqNo: int,
    ts: string,
    kind: string,
    body: map<string, Value>,
    marker: Option<set<string>>,
    prev: Option<Hash>)

  datatype Event = Event(content: Content, hash: Option<Hash>)

  // One line of a partition file; `Unreadable` is a line that is not JSON.
  datatype Line = Record(event: Event) | Unreadable

  // A `dt=` partition. `unterminated` says that the last line has no newline yet.
  datatype Part = Part(day: int, lines: seq<Line>, unterminated: bool)

  datatype Checkpoint = Checkpoint(seqNo: int, hash: Option<Hash>)

  datatype Trail = Trail(parts: seq<Part>, checkpoint: Option<Checkpoint>)

  datatype Position = Position(seqNo: int, hash: Option<Hash>)

  const REDACTED_EVENT := "audit.redacted"
  const REDACTION_TEXT := Text("[redacted]")
  const RESERVED: set<string> := {"seq", "ts", "event", "prev", "hash", "redacted"}

  // ----- reading the trail

  function Lines(parts: seq<Part>): seq<Line> {
    if parts == [] then [] else parts[0].lines + Lines(parts[1..])
  }

  function Readable(lines: seq<Line>): seq<Event> {
    if lines == [] then []
    else
      var front := Readable(lines[..|lines| - 1]);
      match lines[|lines| - 1]
      case Record(e) => front + [e]
      case Unreadable => front
  }

  function LastReadable(lines: seq<Line>): Option<Event> {
    var events := Readable(lines);
    if events == [] then None else Some(events[|events| - 1])
  }

  /** Where the chain starts: the trim checkpoint, or nothing at all. */
  function Base(checkpoint: Option<Checkpoint>): Position {
    match checkpoint
    case None => Position(0, None)
    case Some(c) => Position(c.seqNo, c.hash)
  }

  /** Where the next append continues: the last record that can be read, else the base. */
  function Tail(t: Trail): Position {
    match LastReadable(Lines(t.parts))
    case None => Base(t.checkpoint)
    case Some(e) => Position(e.content.seqNo, e.hash)
  }

  // ----- append

  function NewEvent(tail: Position, chained: bool, ts: string, kind: string, body: map<string, Value>): Event {
    if chained then
      var content := Content(tail.seqNo + 1, ts, kind, body, None, tail.hash);
      Event(content, Some(Sha(content)))
    else
      Event(Content(tail.seqNo + 1, ts, kind, body, None, None), None)
  }

  /** Write one line into the partition of `day`, which need not be the newest one: partitions
      are read in date order, whatever the clock said. A partition whose last line has no
      newline takes the new bytes on that same line, which makes it unreadable. */
  function AddLine(parts: seq<Part>, day: int, line: Line, terminated: bool): seq<Part> {
    if parts == [] || parts[|parts| - 1].day < day then
      parts + [Part(day, [line], !terminated)]
    else
      var front, last := parts[..|parts| - 1], parts[|parts| - 1];
      if last.day == day then front + [Part(day, Extended(last, line), !terminated)]
      else AddLine(front, day, line, terminated) + [last]
  }

  function Extended(part: Part, line: Line): seq<Line> {
    if part.unterminated && part.lines != [] then part.lines[..|part.lines| - 1] + [Unreadable]
    else part.lines + [line]
  }

  /** No partition is newer than this day. */
  ghost predicate Recent(parts: seq<Part>, day: int) {
    forall i :: 0 <= i < |parts| ==> parts[i].day <= day
  }

  function Appended(t: Trail, chained: bool, day: int, ts: string, kind: string, body: map<string, Value>): Trail {
    t.(parts := AddLine(t.parts, day, Record(NewEvent(Tail(t), chained, ts, kind, body)), true))
  }

  // ----- redact

  datatype RedactError = NoFieldsNamed | NoSuchEvent | Unredactable(fields: set<string>) | Absent(fields: set<string>)

  /** Fields that carry the chain, or the record of a redaction, and are never emptied. */
  function Protected(c: Content): set<string> {
    RESERVED + if c.kind == REDACTED_EVENT then {"redacted_seq", "fields"} else {}
  }

  function Emptied(c: Content, fields: set<string>): Content {
    c.(body := map k | k in c.body :: if k in fields then REDACTION_TEXT else c.body[k],
       marker := Some((match c.marker case None => {} case Some(already) => already) + fields))
  }

  /** What a redaction makes of an event, field by field: the named ones read as redacted and
      are added to the marker, and nothing else differs. */
  ghost predicate Blanked(before: Event, after: Event, fields: set<string>) {
    var b, a := before.content, after.content;
    && after.hash == before.hash
    && a.seqNo == b.seqNo && a.ts == b.ts && a.kind == b.kind && a.prev == b.prev
    && a.body.Keys == b.body.Keys
    && (forall f :: f in b.body ==> a.body[f] == if f in fields then Text("[redacted]") else b.body[f])
    && a.marker.Some?
    && (forall f :: f in a.marker.value <==> f in fields || (b.marker.Some? && f in b.marker.value))
  }

  function IndexOf(lines: seq<Line>, seqNo: int): (r: Option<nat>)
    ensures r.Some? ==> r.value < |lines| && lines[r.value].Record? && lines[r.value].event.content.seqNo == seqNo
    ensures r.Some? ==> forall i :: 0 <= i < r.value ==> !(lines[i].Record? && lines[i].event.content.seqNo == seqNo)
    ensures r.None? ==> forall i :: 0 <= i < |lines| ==> !(lines[i].Record? && lines[i].event.content.seqNo == seqNo)
  {
    if lines == [] then None
    else if lines[0].Record? && lines[0].event.content.seqNo == seqNo then Some(0)
    else
      match IndexOf(lines[1..], seqNo)
      case None => None
      case Some(i) => assert lines[1..][i] == lines[i + 1]; Some(i + 1)
  }

  function PartOf(parts: seq<Part>, seqNo: int): (r: Option<nat>)
    ensures r.Some? ==> r.value < |parts| && IndexOf(parts[r.value].lines, seqNo).Some?
    ensures r.Some? ==> forall i :: 0 <= i < r.value ==> IndexOf(parts[i].lines, seqNo).None?
    ensures r.None? ==> forall i :: 0 <= i < |parts| ==> IndexOf(parts[i].lines, seqNo).None?
  {
    if parts == [] then None
    else if IndexOf(parts[0].lines, seqNo).Some? then Some(0)
    else
      match PartOf(parts[1..], seqNo)
      case None => None
      case Some(i) => assert parts[1..][i] == parts[i + 1]; Some(i + 1)
  }

  function Found(parts: seq<Part>, seqNo: int): Event
    requires PartOf(parts, seqNo).Some?
  {
    var p := PartOf(parts, seqNo).value;
    parts[p].lines[IndexOf(parts[p].lines, seqNo).value].event
  }

  function RedactRefusal(parts: seq<Part>, seqNo: int, fields: set<string>): Option<RedactError> {
    if fields == {} then Some(NoFieldsNamed)
    else if PartOf(parts, seqNo).None? then Some(NoSuchEvent)
    else
      var c := Found(parts, seqNo).content;
      if fields * Protected(c) != {} then Some(Unredactable(fields * Protected(c)))
      else if fields - c.body.Keys != {} then Some(Absent(fields - c.body.Keys))
      else None
  }

  /** The rewrite half of a redaction: one event is emptied in place, the file is rewritten
      whole and so ends with a newline again. */
  function Rewritten(parts: seq<Part>, seqNo: int, fields: set<string>): seq<Part>
    requires RedactRefusal(parts, seqNo, fields).None?
  {
    var p := PartOf(parts, seqNo).value;
    var i := IndexOf(parts[p].lines, seqNo).value;
    var e := parts[p].lines[i].event;
    parts[p := Part(parts[p].day,
                    parts[p].lines[i := Record(Event(Emptied(e.content, fields), e.hash))],
                    false)]
  }

  function RecordBody(seqNo: int, fields: set<string>, reason: string, actor: string): map<string, Value> {
    map["redacted_seq" := Number(seqNo), "fields" := Names(fields), "reason" := Text(reason), "actor" := Text(actor)]
  }

  // ----- trim

  /** How many leading partitions are older than the cutoff. */
  function Eligible(parts: seq<Part>, cutoff: int): (k: nat)
    ensures k <= |parts|
    ensures forall i :: 0 <= i < k ==> parts[i].day < cutoff
    ensures k < |parts| ==> parts[k].day >= cutoff
  {
    if parts == [] || parts[0].day >= cutoff then 0
    else
      var k := Eligible(parts[1..], cutoff);
      assert forall i :: 1 <= i < k + 1 ==> parts[i] == parts[1..][i - 1];
      1 + k
  }

  /** The checkpoint written before the first `count` partitions go: the last readable event
      of the newest of them, never moving an existing checkpoint backwards. */
  function TrimCheckpoint(t: Trail, count: nat): Option<Checkpoint>
    requires count <= |t.parts|
  {
    if count == 0 then t.checkpoint
    else
      match LastReadable(t.parts[count - 1].lines)
      case None => t.checkpoint
      case Some(e) =>
        if t.checkpoint.Some? && t.checkpoint.value.seqNo >= e.content.seqNo then t.checkpoint
        else Some(Checkpoint(e.content.seqNo, e.hash))
  }

  // ----- verify

  datatype Problem =
    | UnreadableRecord
    | WrongPrev
    | WrongHash
    | Unexplained
    | Unaccounted(fields: set<string>)

  // A finding at a line, counted over the whole trail.
  datatype Break = Break(at: nat, problem: Problem)

  datatype Redaction = Redaction(at: nat, seqNo: int, fields: set<string>)

  datatype VerifyResult = VerifyResult(ok: bool, breaks: seq<Break>, redactions: seq<Redaction>)

  function RecordedSeq(c: Content): int {
    if "redacted_seq" in c.body && c.body["redacted_seq"].Number? then c.body["redacted_seq"].number else -1
  }

  function RecordedFields(c: Content): set<string> {
    if "fields" in c.body && c.body["fields"].Names? then c.body["fields"].names else {}
  }

  function RunningHash(lines: seq<Line>, start: Option<Hash>): Option<Hash> {
    match LastReadable(lines)
    case None => start
    case Some(e) => e.hash
  }

  function LineBreaks(at: nat, line: Line, prev: Option<Hash>): seq<Break> {
    match line
    case Unreadable => [Break(at, UnreadableRecord)]
    case Record(e) =>
      (if e.content.prev != prev then [Break(at, WrongPrev)] else [])
      + (if e.content.marker.None? && e.hash != Some(Sha(e.content)) then [Break(at, WrongHash)] else [])
  }

  function WalkBreaks(lines: seq<Line>, start: Option<Hash>): seq<Break> {
    if lines == [] then []
    else
      var front := lines[..|lines| - 1];
      WalkBreaks(front, start) + LineBreaks(|front|, lines[|lines| - 1], RunningHash(front, start))
  }

  function AddRecord(m: map<int, set<string>>, line: Line): map<int, set<string>> {
    if line.Record? && line.event.content.kind == REDACTED_EVENT then
      var n := RecordedSeq(line.event.content);
      m[n := (if n in m then m[n] else {}) + RecordedFields(line.event.content)]
    else m
  }

  /** Which fields of which event the `audit.redacted` records account for. */
  function Recorded(lines: seq<Line>): map<int, set<string>> {
    if lines == [] then map[] else AddRecord(Recorded(lines[..|lines| - 1]), lines[|lines| - 1])
  }

  function Redactions(lines: seq<Line>): seq<Redaction> {
    if lines == [] then []
    else
      var front := lines[..|lines| - 1];
      var last := lines[|lines| - 1];
      Redactions(front) +
      if last.Record? && last.event.content.marker.Some?
      then [Redaction(|front|, last.event.content.seqNo, last.event.content.marker.value)] else []
  }

  function AccountBreak(r: Redaction, recorded: map<int, set<string>>): seq<Break> {
    if r.seqNo !in recorded then [Break(r.at, Unexplained)]
    else if r.fields - recorded[r.seqNo] != {} then [Break(r.at, Unaccounted(r.fields - recorded[r.seqNo]))]
    else []
  }

  function AccountBreaks(redactions: seq<Redaction>, recorded: map<int, set<string>>): seq<Break> {
    if redactions == [] then []
    else AccountBreaks(redactions[..|redactions| - 1], recorded) + AccountBreak(redactions[|redactions| - 1], recorded)
  }

  function Verified(t: Trail): VerifyResult {
    var lines := Lines(t.parts);
    var breaks := WalkBreaks(lines, Base(t.checkpoint).hash) + AccountBreaks(Redactions(lines), Recorded(lines));
    VerifyResult(breaks == [], breaks, Redactions(lines))
  }

  // ----- what an intact trail is, said without the walk

  /** A record of a redaction of this event; one that names no event counts for number -1. */
  ghost predicate HasRecord(line: Line, seqNo: int) {
    && line.Record?
    && line.event.content.kind == "audit.redacted"
    && var body := line.event.content.body;
       seqNo == if "redacted_seq" in body && body["redacted_seq"].Number? then body["redacted_seq"].number else -1
  }

  ghost predicate Explains(line: Line, seqNo: int, field: string) {
    && HasRecord(line, seqNo)
    && var body := line.event.content.body;
       "fields" in body && body["fields"].Names? && field in body["fields"].names
  }

  /** Some record says that fields of this event were removed. */
  ghost predicate Known(lines: seq<Line>, seqNo: int) {
    exists q :: 0 <= q < |lines| && HasRecord(lines[q], seqNo)
  }

  /** Some record says that this field of this event was removed. */
  ghost predicate Covered(lines: seq<Line>, seqNo: int, field: string) {
    exists q :: 0 <= q < |lines| && Explains(lines[q], seqNo, field)
  }

  ghost predicate AllReadable(lines: seq<Line>) {
    forall i :: 0 <= i < |lines| ==> lines[i].Record?
  }

  /** Each event names its predecessor's hash, the first one the start of the chain. */
  ghost predicate Linked(events: seq<Event>, start: Option<Hash>) {
    forall i {:trigger HashBefore(events, i, start)} ::
      0 <= i < |events| ==> events[i].content.prev == HashBefore(events, i, start)
  }

  function HashBefore(events: seq<Event>, i: nat, start: Option<Hash>): Option<Hash>
    requires i <= |events|
  {
    if i == 0 then start else events[i - 1].hash
  }

  /** Every event that is not marked as redacted hashes to what it carries. */
  ghost predicate Attested(events: seq<Event>) {
    forall i :: 0 <= i < |events| && events[i].content.marker.None? ==> events[i].hash == Some(Sha(events[i].content))
  }

  /** Every redacted event has a record somewhere for the removal, and for each emptied field. */
  ghost predicate Accounted(lines: seq<Line>) {
    MarksAccounted(lines, lines)
  }

  ghost predicate MarksAccounted(lines: seq<Line>, all: seq<Line>) {
    forall i :: 0 <= i < |lines| && lines[i].Record? && lines[i].event.content.marker.Some? ==>
      AccountedFor(all, lines[i].event.content)
  }

  ghost predicate AccountedFor(lines: seq<Line>, c: Content)
    requires c.marker.Some?
  {
    && Known(lines, c.seqNo)
    && (forall f :: f in c.marker.value ==> Covered(lines, c.seqNo, f))
  }

  ghost predicate Intact(t: Trail) {
    var lines := Lines(t.parts);
    && AllReadable(lines)
    && Linked(Readable(lines), Base(t.checkpoint).hash)
    && Attested(Readable(lines))
    && Accounted(lines)
  }

  // ----- the verifier decides exactly intactness

  lemma {:induction false} ReadableAll(lines: seq<Line>)
    requires AllReadable(lines)
    ensures |Readable(lines)| == |lines|
    ensures forall i :: 0 <= i < |lines| ==> Readable(lines)[i] == lines[i].event
  {
    if lines != [] { ReadableAll(lines[..|lines| - 1]); }
  }

  lemma LinkedSnoc(events: seq<Event>, e: Event, start: Option<Hash>)
    ensures Linked(events + [e], start) <==>
            Linked(events, start) && e.content.prev == if events == [] then start else events[|events| - 1].hash
    ensures Attested(events + [e]) <==>
            Attested(events) && (e.content.marker.None? ==> e.hash == Some(Sha(e.content)))
  {
    var all := events + [e];
    assert all[|events|] == e;
    assert forall i :: 0 <= i < |events| ==> all[i] == events[i];
    if Linked(all, start) {
      forall i | 0 <= i < |events| ensures events[i].content.prev == HashBefore(events, i, start) {
        assert all[i].content.prev == HashBefore(all, i, start);
      }
      assert e.content.prev == HashBefore(all, |events|, start);
    }
    if Linked(events, start) && e.content.prev == HashBefore(all, |events|, start) {
      forall i | 0 <= i < |all| ensures all[i].content.prev == HashBefore(all, i, start) {
        if i < |events| { assert events[i].content.prev == HashBefore(events, i, start); }
      }
    }
  }

  lemma {:induction false} WalkFindsNothing(lines: seq<Line>, start: Option<Hash>)
    ensures WalkBreaks(lines, start) == [] <==>
            AllReadable(lines) && Linked(Readable(lines), start) && Attested(Readable(lines))
  {
    if lines != [] {
      var n := |lines| - 1;
      var front := lines[..n];
      assert lines == front + [lines[n]];
      WalkFindsNothing(front, start);
      match lines[n]
      case Unreadable => assert !AllReadable(lines);
      case Record(e) =>
        assert AllReadable(lines) <==> AllReadable(front);
        LinkedSnoc(Readable(front), e, start);
    }
  }

  lemma CoveredSnoc(front: seq<Line>, last: Line, n: int, f: string)
    ensures Covered(front + [last], n, f) <==> Covered(front, n, f) || Explains(last, n, f)
    ensures Known(front + [last], n) <==> Known(front, n) || HasRecord(last, n)
  {
    var lines := front + [last];
    assert lines[|front|] == last;
    assert forall q :: 0 <= q < |front| ==> lines[q] == front[q];
    if q :| 0 <= q < |front| && Explains(front[q], n, f) { assert Explains(lines[q], n, f); }
    if q :| 0 <= q < |front| && HasRecord(front[q], n) { assert HasRecord(lines[q], n); }
  }

  lemma {:induction false} RecordedMeans(lines: seq<Line>, n: int)
    ensures n in Recorded(lines) <==> Known(lines, n)
    ensures n in Recorded(lines) ==> forall f :: f in Recorded(lines)[n] <==> Covered(lines, n, f)
  {
    if lines != [] {
      var k := |lines| - 1;
      var front := lines[..k];
      assert lines == front + [lines[k]];
      RecordedMeans(front, n);
      CoveredSnoc(front, lines[k], n, "");
      forall f ensures Covered(lines, n, f) <==> Covered(front, n, f) || Explains(lines[k], n, f) {
        CoveredSnoc(front, lines[k], n, f);
      }
      assert forall f :: Covered(front, n, f) ==> Known(front, n) by {
        forall f | Covered(front, n, f) ensures Known(front, n) {
          var q :| 0 <= q < k && Explains(front[q], n, f);
          assert HasRecord(front[q], n);
        }
      }
    }
  }

  lemma AccountBreakMeans(at: nat, c: Content, all: seq<Line>)
    requires c.marker.Some?
    ensures AccountBreak(Redaction(at, c.seqNo, c.marker.value), Recorded(all)) == [] <==> AccountedFor(all, c)
  {
    RecordedMeans(all, c.seqNo);
    if c.seqNo in Recorded(all) {
      var recorded := Recorded(all)[c.seqNo];
      var missing := c.marker.value - recorded;
      assert forall f :: f in missing <==> f in c.marker.value && !Covered(all, c.seqNo, f);
      if AccountedFor(all, c) { assert missing == {}; }
    }
  }

  lemma {:induction false} AccountingFindsNothing(lines: seq<Line>, all: seq<Line>)
    ensures AccountBreaks(Redactions(lines), Recorded(all)) == [] <==> MarksAccounted(lines, all)
  {
    if lines != [] {
      var k := |lines| - 1;
      var front := lines[..k];
      AccountingFindsNothing(front, all);
      assert lines == front + [lines[k]];
      var rest := Redactions(front);
      if lines[k].Record? && lines[k].event.content.marker.Some? {
        AccountBreakMeans(k, lines[k].event.content, all);
        assert Redactions(lines)[..|rest|] == rest;
        MarksSnoc(front, lines[k], all);
      } else {
        MarksSnoc(front, lines[k], all);
        assert Redactions(lines) == rest;
      }
    }
  }

  lemma MarksSnoc(front: seq<Line>, last: Line, all: seq<Line>)
    ensures MarksAccounted(front + [last], all) <==>
            MarksAccounted(front, all) &&
            (last.Record? && last.event.content.marker.Some? ==> AccountedFor(all, last.event.content))
  {
    var lines := front + [last];
    assert forall i :: 0 <= i < |front| ==> lines[i] == front[i];
    assert lines[|front|] == last;
  }

  /** `verify` reports nothing exactly when the trail is intact. */
  lemma VerifiedExactly(t: Trail)
    ensures Verified(t).ok <==> Intact(t)
  {
    var lines := Lines(t.parts);
    WalkFindsNothing(lines, Base(t.checkpoint).hash);
    AccountingFindsNothing(lines, lines);
  }
}
