/**
 Where the file of a reassessed job may be, over every run: evaluations in flight, crashes,
 recoveries, purges, index losses and reindexings included.
 */
module Containment {
  import opened Wrappers
  import opened Disposition
  import opened Reassessment

  // ----- the file is where the row says

  /** The row says archived and nothing is left to release exactly when it names the archive. */
  predicate Agrees(row: Row) {
    row.path.ArchiveRoot? <==> row.disposition.Archive? && !row.releasePending
  }

  predicate Sane(row: Row, gone: bool) {
    row.seqNo >= 1 && (row.releasePending ==> row.disposition.Archive?) && (gone || Agrees(row))
  }

  predicate ReadingKept(reading: Reading, gone: bool) {
    match reading
    case Looked(row, _) => Sane(row, gone)
    case Judged(j) => Sane(j.row, gone)
    case Surveyed(_, _) => true
    case Rebuilt(row, _) => Sane(row, gone) && row.seqNo == 1
  }

  predicate ReadersKept(readers: map<nat, Reading>, gone: bool) {
    forall r :: r in readers ==> ReadingKept(readers[r], gone)
  }

  predicate SettledKept(w: World) {
    && !w.pc.Applying?
    && (w.pdfs != {} && w.rows != [] ==> w.pdfs == {Latest(w).path})
    && (w.pdfs == {ArchiveRoot} || w.pdfs == {QuarantineRoot} || w.pdfs == {})
  }

  predicate MovedAt(stage: Stage) {
    stage.Refresh? || stage.WriteRow? || stage.Audit? || stage.Drop?
  }

  predicate PendingKept(w: World, t: Transition) {
    && w.pdfs <= {t.prior, t.row.path} && Sane(t.row, w.pdfs == {})
    && t.row.seqNo > 1
    && (w.rows != [] ==> Latest(w).seqNo < t.row.seqNo || Latest(w) == t.row)
    && (w.pc.Applying? && MovedAt(w.pc.stage) ==> w.pdfs <= {t.row.path})
    && (w.pc.Applying? && w.pc.stage.Unlink? ==> t.prior != t.row.path)
    && (w.pc.Applying? && (w.pc.stage.Audit? || w.pc.stage.Drop?) ==> w.rows != [] && Latest(w) == t.row)
  }

  predicate ContainKept(w: World) {
    && (w.rows != [] ==> Sane(Latest(w), w.pdfs == {}))
    && ReadersKept(w.readers, w.pdfs == {})
    && match w.pending
       case None => SettledKept(w)
       case Some(t) => PendingKept(w, t)
  }

  /** The write of a rebuild that makes its row the current one. */
  predicate Restores(w: World, a: Action) {
    a.Write? && a.reader in w.readers && w.readers[a.reader].Rebuilt? && |WithFirst(w.rows, w.readers[a.reader].row)| == 1
  }

  /** The guard of a start, and of a rebuild's write: wherever the file may be, the new transition
      names it, and so does the rebuilt row. */
  predicate SoundStart(w: World, a: Action) {
    && (Restores(w, a) && w.pending.None? ==> w.pdfs <= {w.readers[a.reader].row.path})
    && match Started(w, a)
       case None => true
       case Some(t) => w.pdfs <= {t.prior, t.row.path}
  }

  predicate SoundRun(w: World, actions: seq<Action>)
    decreases |actions|
  {
    actions == [] || (SoundStart(w, actions[0]) && SoundRun(Next(w, actions[0]), actions[1..]))
  }

  lemma FewerFiles(readers: map<nat, Reading>, gone: bool, goneNow: bool)
    requires ReadersKept(readers, gone) && (gone ==> goneNow)
    ensures ReadersKept(readers, goneNow)
  {
  }

  lemma NewRowIsSane(pdfs: set<Root>, j: Judgement)
    requires Sane(j.row, pdfs == {}) && pdfs <= {j.row.path, NewRow(pdfs, j).path}
    ensures Sane(NewRow(pdfs, j), pdfs == {})
  {
  }

  lemma ReleasedRowIsSane(pdfs: set<Root>, row: Row)
    requires Sane(row, pdfs == {}) && row.releasePending && pdfs <= {row.path, ReleasedRow(pdfs, row).path}
    ensures Sane(ReleasedRow(pdfs, row), pdfs == {})
  {
  }

  lemma ContainStart(w: World, a: Action)
    requires ContainKept(w) && Started(w, a).Some? && SoundStart(w, a)
    ensures ContainKept(Next(w, a))
  {
    if a.Write? {
      NewRowIsSane(w.pdfs, w.readers[a.reader].judgement);
    } else {
      ReleasedRowIsSane(w.pdfs, Latest(w));
    }
  }

  lemma ContainApplied(w: World, stage: Stage, recovering: bool)
    requires ContainKept(w) && w.pc == Applying(stage, recovering) && w.pending.Some?
    ensures ContainKept(Applied(w, stage, recovering))
  {
    FewerFiles(w.readers, w.pdfs == {}, Applied(w, stage, recovering).pdfs == {});
  }

  lemma ContainPurging(w: World)
    requires ContainKept(w) && !w.pc.Applying?
    ensures ContainKept(Advanced(w))
  {
    FewerFiles(w.readers, w.pdfs == {}, Advanced(w).pdfs == {});
  }

  lemma ContainReading(w: World, a: Action)
    requires ContainKept(w) && (a.Look? || a.Evaluate? || a.Survey? || a.Rebuild?)
    ensures ContainKept(Next(w, a))
  {
  }

  lemma ContainUnstarted(w: World, a: Action)
    requires ContainKept(w) && (a.Release? || (a.Write? && !IsRebuilt(w, a.reader))) && Started(w, a).None?
    ensures ContainKept(Next(w, a))
  {
  }

  predicate IsRebuilt(w: World, reader: nat) {
    reader in w.readers && w.readers[reader].Rebuilt?
  }

  /** The first row is replaced, or put before the others; the current one stays unless it was the
      only one. */
  lemma FirstIsReplaced(rows: seq<Row>, row: Row)
    ensures var after := WithFirst(rows, row);
            && after != []
            && (if |after| == 1 then after[0] == row else rows != [] && after[|after| - 1] == rows[|rows| - 1])
            && (|after| == 1 ==> rows == [] || (|rows| == 1 && rows[0].seqNo <= 1))
  {
  }

  lemma ContainRestored(w: World, reader: nat)
    requires ContainKept(w) && IsRebuilt(w, reader) && SoundStart(w, Write(reader))
    ensures ContainKept(Next(w, Write(reader)))
  {
    FirstIsReplaced(w.rows, w.readers[reader].row);
  }

  lemma ContainStep(w: World, a: Action)
    requires ContainKept(w) && SoundStart(w, a)
    ensures ContainKept(Next(w, a))
  {
    match a {
      case Advance =>
        if w.pc.Applying? && w.pending.Some? {
          ContainApplied(w, w.pc.stage, w.pc.recovering);
        } else if !w.pc.Applying? {
          ContainPurging(w);
        }
      case Look(_, _) => ContainReading(w, a);
      case Survey(_) => ContainReading(w, a);
      case Rebuild(_, _) => ContainReading(w, a);
      case Evaluate(_, _, _, _, _) => ContainReading(w, a);
      case Write(reader) =>
        if Started(w, a).Some? {
          ContainStart(w, a);
        } else if IsRebuilt(w, reader) {
          ContainRestored(w, reader);
        } else {
          ContainUnstarted(w, a);
        }
      case Release => if Started(w, a).Some? { ContainStart(w, a); } else { ContainUnstarted(w, a); }
      case _ =>
    }
  }

  lemma {:induction false} ContainOverRuns(w: World, actions: seq<Action>)
    requires ContainKept(w) && SoundRun(w, actions)
    ensures ContainKept(Run(w, actions))
    decreases |actions|
  {
    if actions != [] {
      ContainStep(w, actions[0]);
      ContainOverRuns(Next(w, actions[0]), actions[1..]);
    }
  }

  /** The file is at the current row's path and nowhere else, and the row says archived with
      nothing left to release exactly when that is the archive. */
  predicate InPlace(w: World)
    requires w.rows != []
  {
    && w.pdfs == {Latest(w).path}
    && (ArchiveRoot in w.pdfs <==> Latest(w).disposition.Archive? && !Latest(w).releasePending)
  }

  /** With no transition pending and the file still on disk, the file is where the current row
      says: after any run of evaluations, writes, releases, purges, crashes, recoveries, index
      losses and reindexings whose starts were sound. */
  lemma RowTellsWhereTheFileIs(text: Extraction, disposition: Disposition, reason: Reason, today: int, actions: seq<Action>)
    requires SoundRun(Ingested(text, disposition, reason, today), actions)
    requires var w := Run(Ingested(text, disposition, reason, today), actions);
             w.pending.None? && w.pdfs != {} && w.rows != []
    ensures InPlace(Run(Ingested(text, disposition, reason, today), actions))
  {
    ContainOverRuns(Ingested(text, disposition, reason, today), actions);
  }

  /** The guard is exact: what is started under it ends with the file in place, what is started
      against it ends with a row that does not say where the file is. */
  lemma StartIsSoundExactly(text: Extraction, disposition: Disposition, reason: Reason, today: int, actions: seq<Action>, a: Action)
    requires SoundRun(Ingested(text, disposition, reason, today), actions)
    requires var w := Run(Ingested(text, disposition, reason, today), actions); w.pdfs != {} && Started(w, a).Some?
    ensures var w := Run(Ingested(text, disposition, reason, today), actions);
            var after := Run(w, [a] + Advances(6));
            && after.pending.None? && after.pc.Idle? && after.rows != [] && after.pdfs != {}
            && (SoundStart(w, a) <==> InPlace(after))
  {
    var w := Run(Ingested(text, disposition, reason, today), actions);
    ContainOverRuns(Ingested(text, disposition, reason, today), actions);
    StartedFinishes(w, a);
    if SoundStart(w, a) { ContainStart(w, a); }
    MovesOnceOnly(w, a);
  }

  /** The same of a rebuild that makes its row the current one. */
  lemma RestoreIsSoundExactly(text: Extraction, disposition: Disposition, reason: Reason, today: int, actions: seq<Action>, a: Action)
    requires SoundRun(Ingested(text, disposition, reason, today), actions)
    requires var w := Run(Ingested(text, disposition, reason, today), actions);
             Restores(w, a) && w.pending.None? && w.pdfs != {}
    ensures var w := Run(Ingested(text, disposition, reason, today), actions);
            Next(w, a).rows != [] && (SoundStart(w, a) <==> InPlace(Next(w, a)))
  {
    var w := Run(Ingested(text, disposition, reason, today), actions);
    ContainOverRuns(Ingested(text, disposition, reason, today), actions);
    FirstIsReplaced(w.rows, w.readers[a.reader].row);
    SomewhereOnDisk(w.pdfs);
  }

  lemma MovesOnceOnly(w: World, a: Action)
    requires ContainKept(w) && Started(w, a).Some? && w.pdfs != {}
    ensures var t, after := Started(w, a).value, Run(w, [a] + Advances(6));
            && after.rows != [] && Latest(after) == t.row && after.pdfs != {}
            && (after.pdfs == {t.row.path} <==> w.pdfs <= {t.prior, t.row.path})
            && (SoundStart(w, a) ==> Agrees(t.row))
  {
    StartedFinishes(w, a);
    var t := Started(w, a).value;
    assert w.rows != [] ==> Latest(w).seqNo < t.row.seqNo;
    if SoundStart(w, a) { ContainStart(w, a); }
    SomewhereOnDisk(w.pdfs);
    var after := Run(w, [a] + Advances(6));
    assert after.pdfs == w.pdfs || t.row.path in after.pdfs;
  }

  lemma SomewhereOnDisk(pdfs: set<Root>)
    ensures pdfs != {} ==> ArchiveRoot in pdfs || QuarantineRoot in pdfs
  {
    if root :| root in pdfs {
      match root
      case ArchiveRoot =>
      case QuarantineRoot =>
    }
  }

  /** `_is_contained`: does reading the file need the quarantine permission? */
  predicate IsContained(row: Row) {
    row.disposition.Quarantine? || row.releasePending || row.path.QuarantineRoot?
  }

  /** With no transition pending, the console asks for the quarantine permission exactly for the
      files that lie in quarantine. */
  lemma PermissionFollowsTheFile(text: Extraction, disposition: Disposition, reason: Reason, today: int, actions: seq<Action>)
    requires SoundRun(Ingested(text, disposition, reason, today), actions)
    requires var w := Run(Ingested(text, disposition, reason, today), actions);
             w.pending.None? && w.pdfs != {} && w.rows != []
    ensures var w := Run(Ingested(text, disposition, reason, today), actions);
            IsContained(Latest(w)) <==> QuarantineRoot in w.pdfs
  {
    RowTellsWhereTheFileIs(text, disposition, reason, today, actions);
    var w := Run(Ingested(text, disposition, reason, today), actions);
    assert ArchiveRoot in w.pdfs <==> Latest(w).path == ArchiveRoot;
    assert QuarantineRoot in w.pdfs <==> Latest(w).path == QuarantineRoot;
  }

  // ----- when starts are sound

  predicate IsBack(row: Row, latest: Row) {
    row.seqNo < latest.seqNo || row == latest
  }

  /** What a reader looked up is the current row, or an older one; no rebuild is under way. */
  predicate LooksBack(w: World) {
    w.rows != [] &&
    forall r :: r in w.readers ==>
      match w.readers[r]
      case Looked(row, _) => IsBack(row, Latest(w))
      case Judged(j) => IsBack(j.row, Latest(w))
      case _ => false
  }

  /** Nothing is started over a pending transition, and the index is not lost under the readers. */
  predicate Orderly(w: World, a: Action) {
    !a.LoseIndex? && (Started(w, a).Some? ==> w.pending.None?)
  }

  predicate OrderlyRun(w: World, actions: seq<Action>)
    decreases |actions|
  {
    actions == [] || (Orderly(w, actions[0]) && OrderlyRun(Next(w, actions[0]), actions[1..]))
  }

  lemma LooksBackReading(w: World, a: Action)
    requires LooksBack(w) && (a.Look? || a.Evaluate? || a.Survey? || a.Rebuild?)
    ensures LooksBack(Next(w, a))
  {
  }

  lemma LooksBackWriting(w: World, a: Action)
    requires LooksBack(w) && (a.Write? || a.Release?)
    ensures LooksBack(Next(w, a))
  {
  }

  lemma LooksBackOther(w: World, a: Action)
    requires LooksBack(w) && (a.NextDay? || a.Purge? || a.Recover? || a.Advance? || a.Crash?)
    ensures LooksBack(Next(w, a))
  {
  }

  lemma LooksBackStep(w: World, a: Action)
    requires LooksBack(w) && !a.LoseIndex?
    ensures LooksBack(Next(w, a))
  {
    if a.Look? || a.Evaluate? || a.Survey? || a.Rebuild? {
      LooksBackReading(w, a);
    } else if a.Write? || a.Release? {
      LooksBackWriting(w, a);
    } else {
      LooksBackOther(w, a);
    }
  }

  lemma OrderlyIsSound(w: World, a: Action)
    requires ContainKept(w) && LooksBack(w) && Orderly(w, a)
    ensures SoundStart(w, a)
  {
  }

  lemma {:induction false} OrderlyRunsAreSound(w: World, actions: seq<Action>)
    requires ContainKept(w) && LooksBack(w) && OrderlyRun(w, actions)
    ensures SoundRun(w, actions) && LooksBack(Run(w, actions))
    decreases |actions|
  {
    if actions != [] {
      OrderlyIsSound(w, actions[0]);
      ContainStep(w, actions[0]);
      LooksBackStep(w, actions[0]);
      OrderlyRunsAreSound(Next(w, actions[0]), actions[1..]);
    }
  }

  // ----- who may open the quarantine

  /** Only a release moves a file into the archive. */
  predicate MovesBack(t: Transition) {
    t.kind.Released? || t.prior == t.row.path || t.row.path.QuarantineRoot?
  }

  /** Nothing of the document is in the archive, and no release is on its way. */
  predicate Contained(w: World) {
    ArchiveRoot !in w.pdfs && (w.pending.Some? ==> MovesBack(w.pending.value) && !w.pending.value.kind.Released?)
  }

  lemma ContainedStep(w: World, a: Action)
    requires Contained(w) && !a.Release?
    ensures Contained(Next(w, a))
  {
  }

  /** No run without an operator's release takes a file out of quarantine, however its starts and
      crashes fall. */
  lemma {:induction false} OnlyReleaseOpensQuarantine(w: World, actions: seq<Action>)
    requires Contained(w)
    requires forall i :: 0 <= i < |actions| ==> !actions[i].Release?
    ensures Contained(Run(w, actions))
    decreases |actions|
  {
    if actions != [] {
      ContainedStep(w, actions[0]);
      OnlyReleaseOpensQuarantine(Next(w, actions[0]), actions[1..]);
    }
  }

  predicate ReleaseRecorded(trail: seq<Event>) {
    exists i :: 0 <= i < |trail| && trail[i].Transitioned? && trail[i].kind.Released?
  }

  predicate Closing(t: Transition) {
    t.prior.ArchiveRoot? && t.row.path.QuarantineRoot?
  }

  predicate OnItsWay(t: Transition, pc: Pc) {
    t.kind.Released? || (Closing(t) && !(pc.Applying? && MovedAt(pc.stage)))
  }

  predicate OpeningExplained(w: World) {
    && (ArchiveRoot !in w.pdfs || ReleaseRecorded(w.trail) || (w.pending.Some? && OnItsWay(w.pending.value, w.pc)))
    && (w.pending.Some? ==> MovesBack(w.pending.value))
    && (w.pending.Some? && w.pending.value.kind.Released? && w.pc.Applying? && w.pc.stage.Drop? ==> ReleaseRecorded(w.trail))
  }

  /** While a file lies in the archive and no release is on record, only the release itself, or a
      move back, may be started. */
  predicate Excusable(w: World, a: Action) {
    match Started(w, a)
    case None => true
    case Some(t) => ArchiveRoot in w.pdfs && !ReleaseRecorded(w.trail) ==> t.kind.Released? || Closing(t)
  }

  predicate ExcusableRun(w: World, actions: seq<Action>)
    decreases |actions|
  {
    actions == [] || (Excusable(w, actions[0]) && ExcusableRun(Next(w, actions[0]), actions[1..]))
  }

  lemma RecordStays(trail: seq<Event>, e: Event)
    ensures ReleaseRecorded(trail + [e]) <==> ReleaseRecorded(trail) || (e.Transitioned? && e.kind.Released?)
  {
    assert (trail + [e])[|trail|] == e;
    if i :| 0 <= i < |trail| && trail[i].Transitioned? && trail[i].kind.Released? { assert (trail + [e])[i] == trail[i]; }
  }

  lemma ExplainedApplied(w: World, stage: Stage, recovering: bool)
    requires OpeningExplained(w) && w.pending.Some? && w.pc == Applying(stage, recovering)
    ensures OpeningExplained(Applied(w, stage, recovering))
  {
    var t := w.pending.value;
    if stage.Audit? {
      RecordStays(w.trail, Transitioned(t.kind, t.row.seqNo, w.today));
      if recovering && FoundSince(w.trail, t) {
        var i :| 0 <= i < |w.trail| && Matches(w.trail[i], t) && w.trail[i].day >= t.day;
        assert t.kind.Released? ==> w.trail[i].kind.Released?;
      }
    }
  }

  lemma ExplainedStart(w: World, a: Action)
    requires OpeningExplained(w) && Started(w, a).Some? && Excusable(w, a)
    ensures OpeningExplained(Next(w, a))
  {
  }

  lemma ExplainedPurging(w: World)
    requires OpeningExplained(w) && !w.pc.Applying?
    ensures OpeningExplained(Advanced(w))
  {
    RecordStays(w.trail, ContentPurged);
  }

  lemma ExplainedOther(w: World, a: Action)
    requires OpeningExplained(w) && Started(w, a).None? && !a.Advance?
    ensures OpeningExplained(Next(w, a))
  {
    RecordStays(w.trail, PurgeStarted);
  }

  lemma ExplainedStep(w: World, a: Action)
    requires OpeningExplained(w) && Excusable(w, a)
    ensures OpeningExplained(Next(w, a))
  {
    if a.Advance? {
      if w.pc.Applying? && w.pending.Some? {
        ExplainedApplied(w, w.pc.stage, w.pc.recovering);
      } else if !w.pc.Applying? {
        ExplainedPurging(w);
      }
    } else if Started(w, a).Some? {
      ExplainedStart(w, a);
    } else {
      ExplainedOther(w, a);
    }
  }

  lemma {:induction false} ExplainedOverRuns(w: World, actions: seq<Action>)
    requires OpeningExplained(w) && ExcusableRun(w, actions)
    ensures OpeningExplained(Run(w, actions))
    decreases |actions|
  {
    if actions != [] {
      ExplainedStep(w, actions[0]);
      ExplainedOverRuns(Next(w, actions[0]), actions[1..]);
    }
  }

  /** A document that was quarantined at ingest and later lies in the archive, with nothing
      pending, has a `job.released` event in the trail, if every start was excusable. */
  lemma OpeningIsOnRecord(text: Extraction, reason: Reason, today: int, actions: seq<Action>)
    requires ExcusableRun(Ingested(text, Quarantine, reason, today), actions)
    requires var w := Run(Ingested(text, Quarantine, reason, today), actions);
             w.pending.None? && ArchiveRoot in w.pdfs
    ensures ReleaseRecorded(Run(Ingested(text, Quarantine, reason, today), actions).trail)
  {
    ExplainedOverRuns(Ingested(text, Quarantine, reason, today), actions);
  }

  /** And exactly then: a start that is not excusable ends with the file in the archive and no
      such event. */
  lemma OpeningIsOnRecordExactly(text: Extraction, reason: Reason, today: int, actions: seq<Action>, a: Action)
    requires ExcusableRun(Ingested(text, Quarantine, reason, today), actions)
    requires Started(Run(Ingested(text, Quarantine, reason, today), actions), a).Some?
    ensures var w := Run(Ingested(text, Quarantine, reason, today), actions);
            var after := Run(w, [a] + Advances(6));
            after.pending.None? && (Excusable(w, a) <==> (ArchiveRoot in after.pdfs ==> ReleaseRecorded(after.trail)))
  {
    var w := Run(Ingested(text, Quarantine, reason, today), actions);
    ExplainedOverRuns(Ingested(text, Quarantine, reason, today), actions);
    StartedFinishes(w, a);
    var t := Started(w, a).value;
    RecordStays(w.trail, Transitioned(t.kind, t.row.seqNo, w.today));
  }
}
