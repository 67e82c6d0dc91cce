/**
 What one reassessment or release leaves when nobody interrupts it, said outright: when the
 document is quarantined and why, what the new row records, where the file lies.
 */
module Assessments {
  import opened Wrappers
  import opened Disposition
  import opened Reassessment
  import opened Containment
  import Degradation

  // ----- the policy

  /** A document is quarantined for a hit, and under the strict setting for an extraction that
      failed, found nothing or was degraded. The reason names the hit only when nothing else was
      wrong, and an empty extraction only when no page failed. */
  lemma DecidedExactly(text: Extraction, hit: bool, strict: bool)
    ensures var (to, reason) := Decide(text, hit, strict);
            var empty := text.pageCount > 0 && text.lines == [];
            && (to == Quarantine <==> hit || (strict && (text.failedPages > 0 || empty || text.degraded)))
            && (reason == DlpHit <==> hit && !(strict && (text.failedPages > 0 || empty || text.degraded)))
            && (reason == NoTextExtracted <==> strict && empty && text.failedPages == 0)
            && (reason == DegradedExtraction <==> strict && (text.failedPages > 0 || (text.degraded && !empty)))
            && (reason == NoReason <==> to == Archive)
  {
  }

  /** Judged again from its stored text, a document is decided as a look at the same extraction
      would decide it, except in one case: a page failed, ingest was not strict and so did not say
      why, nothing else is wrong, and the setting is strict by now. */
  lemma RulesModeAgreesExactly(text: Extraction, ingestHit: bool, ingestStrict: bool, hit: bool, strict: bool, same: bool, today: int, unused: Extraction)
    ensures var (to, reason) := Decide(text, ingestHit, ingestStrict);
            var w := Ingested(text, to, reason, today);
            var j := Judge(w.content, w.pdfs, Latest(w), Rules, unused, hit, strict, same);
            && j.Some? && j.value.text.None?
            && (j.value.to == Decide(text, hit, strict).0 <==>
                !(text.failedPages > 0 && !ingestStrict && strict && !hit &&
                  !text.degraded && (text.pageCount == 0 || text.lines != [])))
  {
  }

  /** An extraction with a failed page says that it is degraded. Such a document is always judged
      alike. */
  lemma RulesModeAgrees(text: Extraction, ingestHit: bool, ingestStrict: bool, hit: bool, strict: bool, same: bool, today: int, unused: Extraction)
    requires text.failedPages > 0 ==> text.degraded
    ensures var (to, reason) := Decide(text, ingestHit, ingestStrict);
            var w := Ingested(text, to, reason, today);
            var j := Judge(w.content, w.pdfs, Latest(w), Rules, unused, hit, strict, same);
            && j.Some? && j.value.to == Decide(text, hit, strict).0
            && (hit == ingestHit && strict == ingestStrict ==> j.value.to == to)
  {
    RulesModeAgreesExactly(text, ingestHit, ingestStrict, hit, strict, same, today, unused);
  }

  // ----- one reassessment

  // What a reassessment is asked to do, and what it finds.
  datatype Request = Request(mode: Mode, extracted: Extraction, hit: bool, strict: bool, same: bool)

  /** Stored text for the rules, the file for an extraction. */
  predicate Available(w: World, q: Request)
    requires w.rows != []
  {
    if q.mode == Rules then w.content.Some? else w.rows[|w.rows| - 1].path in w.pdfs
  }

  /** The row, the file, the text and the event of one reassessment. */
  ghost predicate ReassessedAs(w: World, after: World, q: Request)
    requires w.rows != []
  {
    var row := w.rows[|w.rows| - 1];
    if !Available(w, q) then Untouched(w, after)
    else
      var anew := q.mode == Extract;
      var pages := if anew then q.extracted.pageCount else row.pageCount;
      var degraded := if anew then q.extracted.degraded else row.degraded;
      var lines := if anew then q.extracted.lines else w.content.value;
      var to := Outcome(w, q);
      && after.content == Some(lines)
      && if to == row.disposition && q.same && pages == row.pageCount && degraded == row.degraded
         then Untouched(w.(content := after.content), after)
         else MovedAs(w, after, to, pages, degraded)
  }

  /** What the document is decided to be, on a new extraction or on what is recorded. */
  ghost function Outcome(w: World, q: Request): Disposition
    requires w.rows != [] && Available(w, q)
  {
    var row := w.rows[|w.rows| - 1];
    var broken := if q.mode == Extract then q.extracted.failedPages > 0 || q.extracted.degraded
                  else row.reason == DegradedExtraction || row.degraded;
    var empty := if q.mode == Extract then q.extracted.pageCount > 0 && q.extracted.lines == []
                 else row.pageCount > 0 && w.content == Some([]);
    if q.hit || (q.strict && (broken || empty)) then Quarantine else Archive
  }

  ghost predicate Untouched(w: World, after: World) {
    && after.rows == w.rows && after.pdfs == w.pdfs && after.content == w.content
    && after.trail == w.trail && after.pending == w.pending && after.today == w.today
  }

  /** The next row. A document that goes from archive to quarantine takes its file along, if it
      has one; one that leaves quarantine waits there for its release. */
  ghost predicate MovedAs(w: World, after: World, to: Disposition, pages: nat, degraded: bool)
    requires w.rows != []
  {
    var row := w.rows[|w.rows| - 1];
    var locked := row.disposition == Archive && to == Quarantine;
    var path := if locked && (row.path in w.pdfs || QuarantineRoot in w.pdfs) then QuarantineRoot else row.path;
    var waits := to == Archive && (row.disposition == Quarantine || row.releasePending);
    && after.rows == w.rows + [Row(row.seqNo + 1, Some(row.seqNo), to, waits, path, pages, degraded, NoReason)]
    && after.pdfs == (if path != row.path && row.path in w.pdfs then w.pdfs + {path} - {row.path} else w.pdfs)
    && after.trail == w.trail + [Transitioned(Reassessed, row.seqNo + 1, w.today)]
    && after.pending.None? && after.today == w.today
  }

  function Reassessing(reader: nat, q: Request): seq<Action> {
    Reader(reader, q.mode, q.extracted, q.hit, q.strict, q.same) + Advances(6)
  }

  function Judged(w: World, q: Request): Option<Judgement>
    requires w.rows != []
  {
    Judge(w.content, w.pdfs, Latest(w), q.mode, q.extracted, q.hit, q.strict, q.same)
  }

  lemma JudgedRow(w: World, j: Judgement)
    requires w.rows != [] && j.row == Latest(w)
    ensures var row := NewRow(w.pdfs, j);
            var locked := j.row.disposition == Archive && j.to == Quarantine;
            && row.path == (if locked && (j.row.path in w.pdfs || QuarantineRoot in w.pdfs) then QuarantineRoot else j.row.path)
            && row == Row(j.row.seqNo + 1, Some(j.row.seqNo), j.to,
                          j.to == Archive && (j.row.disposition == Quarantine || j.row.releasePending),
                          row.path, j.pageCount, j.degraded, NoReason)
  {
  }

  lemma JudgesAs(w: World, q: Request)
    requires w.rows != []
    ensures Judged(w, q).None? <==> !Available(w, q)
    ensures Judged(w, q).Some? ==>
              var j, row := Judged(w, q).value, w.rows[|w.rows| - 1];
              && j.row == row && j.to == Outcome(w, q)
              && j.text == (if q.mode == Extract then Some(q.extracted.lines) else None)
              && j.pageCount == (if q.mode == Extract then q.extracted.pageCount else row.pageCount)
              && j.degraded == (if q.mode == Extract then q.extracted.degraded else row.degraded)
              && (Towards(j).Unchanged? <==>
                  j.to == row.disposition && q.same && j.pageCount == row.pageCount && j.degraded == row.degraded)
  {
  }

  lemma WrittenAs(w: World, reader: nat, j: Judgement)
    requires w.pc.Idle? && w.rows != [] && j.row == Latest(w) && !Towards(j).Unchanged?
    ensures var after := Run(Written(Left(w, reader), j), Advances(6));
            && MovedAs(w, after, j.to, j.pageCount, j.degraded)
            && after.content == (if j.text.Some? then j.text else w.content)
            && after.pc.Idle? && after.readers == w.readers - {reader}
  {
    JudgedRow(w, j);
    var begun := Written(Left(w, reader), j);
    StraightIsStepwise(begun, false);
    var t := WriteOf(w, j).value;
    assert begun == Left(w, reader).(pending := Some(t), pc := Applying(Copy, false));
    assert t.row.seqNo == Latest(w).seqNo + 1;
  }

  lemma MovedIsReassessed(w: World, after: World, q: Request)
    requires w.rows != [] && Judged(w, q).Some? && !Towards(Judged(w, q).value).Unchanged?
    requires var j := Judged(w, q).value;
             MovedAs(w, after, j.to, j.pageCount, j.degraded) && after.content == if j.text.Some? then j.text else w.content
    ensures ReassessedAs(w, after, q)
  {
    JudgesAs(w, q);
  }

  lemma UnchangedIsReassessed(w: World, reader: nat, q: Request)
    requires w.rows != [] && Judged(w, q).Some? && Towards(Judged(w, q).value).Unchanged?
    ensures ReassessedAs(w, Written(Left(w, reader), Judged(w, q).value), q)
  {
    JudgesAs(w, q);
  }

  /** One reassessment that is left alone, of any job in any state: what it does to the row, the
      file, the text and the trail. */
  lemma ReassessmentLeftAlone(w: World, reader: nat, q: Request)
    requires w.pc.Idle? && w.rows != []
    ensures var after := Run(w, Reassessing(reader, q));
            ReassessedAs(w, after, q) && after.pc.Idle? && after.readers == w.readers - {reader}
  {
    ReaderAlone(w, reader, q.mode, q.extracted, q.hit, q.strict, q.same, Advances(6));
    var judged := Judged(w, q);
    if judged.None? {
      JudgesAs(w, q);
      RestingStays(Left(w, reader), 6);
    } else if Towards(judged.value).Unchanged? {
      UnchangedIsReassessed(w, reader, q);
      RestingStays(Written(Left(w, reader), judged.value), 6);
    } else {
      WrittenAs(w, reader, judged.value);
      MovedIsReassessed(w, Run(Written(Left(w, reader), judged.value), Advances(6)), q);
    }
  }

  // ----- a degraded extraction

  lemma DegradedRow(w: World, after: World, q: Request)
    requires ContainKept(w) && w.pending.None? && w.rows != [] && w.pdfs != {}
    requires q.mode == Extract && q.strict && q.extracted.degraded && ReassessedAs(w, after, q)
    ensures after.rows != [] && after.pending.None? && after.pdfs == {QuarantineRoot}
    ensures after.content == Some(q.extracted.lines)
    ensures var row := Latest(after);
            && row.degraded && row.disposition == Quarantine && !row.releasePending
            && row.pageCount == q.extracted.pageCount && row.path == QuarantineRoot
  {
    var row := Latest(w);
    assert w.pdfs == {row.path} && Sane(row, false);
    assert Outcome(w, q) == Quarantine;
  }

  /** Under the strict setting, a reassessment that extracts the document again and finds it
      degraded leaves it marked so and locked up, with the pages of that extraction; and no
      reassessment of its stored text, release, purge, crash, recovery or rebuild that finds the
      mark clears it afterwards. */
  lemma DegradedExtractionHolds(text: Extraction, disposition: Disposition, reason: Reason, today: int, before: seq<Action>, reader: nat, q: Request, later: seq<Action>)
    requires SoundRun(Ingested(text, disposition, reason, today), before)
    requires var w := Run(Ingested(text, disposition, reason, today), before);
             w.pc.Idle? && w.pending.None? && w.readers == map[] && w.rows != [] && w.pdfs != {}
    requires q.mode == Extract && q.strict && q.extracted.degraded
    requires Degradation.CheapRun(Run(Run(Ingested(text, disposition, reason, today), before), Reassessing(reader, q)), later)
    ensures var w := Run(Ingested(text, disposition, reason, today), before);
            var after := Run(w, Reassessing(reader, q));
            var end := Run(after, later);
            && after.rows != [] && after.pdfs == {QuarantineRoot} && after.content == Some(q.extracted.lines)
            && Latest(after).degraded && Latest(after).disposition == Quarantine && !Latest(after).releasePending
            && Latest(after).pageCount == q.extracted.pageCount
            && (end.rows != [] ==> Latest(end).degraded && Latest(end).disposition == Quarantine && !Latest(end).releasePending)
            && ArchiveRoot !in end.pdfs
  {
    var w := Run(Ingested(text, disposition, reason, today), before);
    ContainOverRuns(Ingested(text, disposition, reason, today), before);
    ReassessmentLeftAlone(w, reader, q);
    var after := Run(w, Reassessing(reader, q));
    DegradedRow(w, after, q);
    assert after.readers == map[];
    Degradation.RulesModeNeverClearsDegraded(after, later);
  }

  // ----- what the rules leave alone

  predicate Of(row: Row, text: Extraction) {
    row.pageCount == text.pageCount && row.degraded == text.degraded
  }

  predicate ReadingOf(reading: Reading, text: Extraction) {
    match reading
    case Looked(row, mode) => mode.Rules? && Of(row, text)
    case Judged(j) => j.pageCount == text.pageCount && j.degraded == text.degraded
    case _ => false
  }

  predicate AllOf(w: World, text: Extraction) {
    && (forall i :: 0 <= i < |w.rows| ==> Of(w.rows[i], text))
    && (w.pending.Some? ==> Of(w.pending.value.row, text))
    && (forall r :: r in w.readers ==> ReadingOf(w.readers[r], text))
  }

  lemma AllOfStep(w: World, text: Extraction, a: Action)
    requires AllOf(w, text) && !a.Survey? && (a.Look? ==> a.mode.Rules?)
    ensures AllOf(Next(w, a), text)
  {
  }

  lemma {:induction false} AllOfOverRuns(w: World, text: Extraction, actions: seq<Action>)
    requires AllOf(w, text)
    requires forall i :: 0 <= i < |actions| ==> !actions[i].Survey? && (actions[i].Look? ==> actions[i].mode.Rules?)
    ensures AllOf(Run(w, actions), text)
    decreases |actions|
  {
    if actions != [] {
      AllOfStep(w, text, actions[0]);
      AllOfOverRuns(Next(w, actions[0]), text, actions[1..]);
    }
  }

  /** Without a new extraction or a rebuild, every assessment there ever is keeps the page count
      and the degraded mark that ingest recorded. */
  lemma RulesKeepTheExtraction(text: Extraction, disposition: Disposition, reason: Reason, today: int, actions: seq<Action>, i: nat)
    requires forall k :: 0 <= k < |actions| ==> !actions[k].Survey? && (actions[k].Look? ==> actions[k].mode.Rules?)
    requires i < |Run(Ingested(text, disposition, reason, today), actions).rows|
    ensures var row := Run(Ingested(text, disposition, reason, today), actions).rows[i];
            row.pageCount == text.pageCount && row.degraded == text.degraded
  {
    AllOfOverRuns(Ingested(text, disposition, reason, today), text, actions);
  }

  // ----- one release

  /** A release moves the file into the archive and says so; it decides nothing again. */
  ghost predicate ReleasedAs(w: World, after: World) {
    if w.rows == [] then Untouched(w, after)
    else
      var row := w.rows[|w.rows| - 1];
      if !row.releasePending || (row.path !in w.pdfs && ArchiveRoot !in w.pdfs) then Untouched(w, after)
      else
        && after.rows == w.rows + [Row(row.seqNo + 1, Some(row.seqNo), row.disposition, false, ArchiveRoot,
                                       row.pageCount, row.degraded, NoReason)]
        && after.pdfs == (if row.path != ArchiveRoot && row.path in w.pdfs then w.pdfs + {ArchiveRoot} - {row.path} else w.pdfs)
        && after.content == w.content
        && after.trail == w.trail + [Transitioned(Released, row.seqNo + 1, w.today)]
        && after.pending.None? && after.today == w.today
  }

  lemma ReleaseLeftAlone(w: World)
    requires w.pc.Idle?
    ensures var after := Run(w, [Action.Release] + Advances(6));
            ReleasedAs(w, after) && after.pc.Idle? && after.readers == w.readers
  {
    RunOne(w, Action.Release, Advances(6));
    if ReleaseOf(w).None? {
      RestingStays(w, 6);
    } else {
      StraightIsStepwise(Next(w, Action.Release), false);
    }
  }

  // ----- one rebuild

  /** A lost index is rebuilt from where the file lies, quarantine first: a first row that says so
      and says nothing of the rest that only an extraction would show, and the extracted text only
      if there is none and none was purged. */
  lemma RebuildLeftAlone(w: World, reader: nat, extracted: Extraction)
    requires w.rows == [] && (QuarantineRoot in w.pdfs || ArchiveRoot in w.pdfs)
    ensures var after := Run(w, Reindex(reader, extracted));
            var place := if QuarantineRoot in w.pdfs then QuarantineRoot else ArchiveRoot;
            && after.rows == [Row(1, None, if place == QuarantineRoot then Quarantine else Archive, false, place,
                                  if w.content.Some? then 0 else extracted.pageCount,
                                  w.content.None? && extracted.degraded, NoReason)]
            && after.content == (if w.content.Some? || PurgeStarted in w.trail || ContentPurged in w.trail then w.content
                                 else Some(extracted.lines))
            && after.pdfs == w.pdfs && after.trail == w.trail && after.pending == w.pending && after.pc == w.pc
  {
    RebuildAlone(w, reader, extracted, []);
    assert Reindex(reader, extracted) + [] == Reindex(reader, extracted);
  }

  /** A rebuild that was overtaken by another writer takes the place of the first assessment and
      leaves the later ones: no number stands twice. */
  lemma RestoreReplacesTheFirst(w: World, reader: nat)
    requires IsRebuilt(w, reader) && w.readers[reader].row.seqNo == 1
    requires forall i :: 0 <= i < |w.rows| ==> w.rows[i].seqNo >= 1
    requires forall i, j :: 0 <= i < j < |w.rows| ==> w.rows[i].seqNo < w.rows[j].seqNo
    ensures var after := Next(w, Write(reader)).rows;
            && after != [] && after[0] == w.readers[reader].row
            && (forall i, j :: 0 <= i < j < |after| ==> after[i].seqNo < after[j].seqNo)
            && (forall row :: row in after && row.seqNo > 1 <==> row in w.rows && row.seqNo > 1)
  {
    var row := w.readers[reader].row;
    var after := Next(w, Write(reader)).rows;
    if w.rows != [] && w.rows[0].seqNo <= 1 {
      assert w.rows == [w.rows[0]] + w.rows[1..];
      assert after == [row] + w.rows[1..];
    } else {
      assert after == [row] + w.rows;
    }
  }
}
