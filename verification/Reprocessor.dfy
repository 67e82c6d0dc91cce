/**
 Reassessment as it is written: methods that change the stores of one job in straight lines.
 Left alone, each does exactly what the single steps of `Reassessment` do.
 */
module Reprocessor {
  import opened Wrappers
  import opened Disposition
  import opened Reassessment
  import opened Containment
  import opened Recovery
  import opened Erasure
  import Assessments

  class JobRecords {
    var rows: seq<Row>
    var pdfs: set<Root>
    var content: Option<seq<string>>
    var trail: seq<Event>
    var pending: Option<Transition>
    var today: int

    /** A job as ingest leaves it. */
    constructor (text: Extraction, disposition: Disposition, reason: Reason, today: int)
      ensures View(Idle) == Ingested(text, disposition, reason, today)
    {
      rows := [Row(1, None, disposition, false, Home(disposition), text.pageCount, text.degraded, reason)];
      pdfs, content, trail, pending := {Home(disposition)}, Some(text.lines), [], None;
      this.today := today;
    }

    function View(pc: Pc): World
      reads this
    {
      World(rows, pdfs, content, trail, pending, map[], today, pc)
    }

    /** `move_durably`: copy, then unlink. */
    method MoveDurably(source: Root, target: Root)
      requires source != target && source in pdfs
      modifies this`pdfs
      ensures pdfs == old(pdfs) + {target} - {source}
    {
      pdfs := pdfs + {target};
      pdfs := pdfs - {source};
    }

    /** The trail is searched from the transition file's own date on. */
    method AlreadyAudited(t: Transition) returns (found: bool)
      ensures found <==> FoundSince(trail, t)
    {
      found := false;
      for i := 0 to |trail|
        invariant found <==> exists j :: 0 <= j < i && Matches(trail[j], t) && trail[j].day >= t.day
      {
        if Matches(trail[i], t) && trail[i].day >= t.day { found := true; }
      }
    }

    /** The file moves, the text is refreshed. */
    method ApplyToFiles(t: Transition, recovering: bool)
      requires pending == Some(t)
      modifies this`pdfs, this`content
      ensures View(Applying(WriteRow, recovering)) == Filed(old(View(Applying(Copy, recovering))), recovering)
    {
      if t.prior != t.row.path && t.prior in pdfs {
        MoveDurably(t.prior, t.row.path);
      }
      if t.text.Some? {
        content := t.text;
      }
    }

    /** The row is written unless it is there, the event unless it is there. */
    method ApplyToRecords(t: Transition, recovering: bool)
      requires pending == Some(t)
      modifies this`rows, this`trail
      ensures View(Applying(Drop, recovering)) == Noted(old(View(Applying(WriteRow, recovering))), recovering)
    {
      if rows == [] || rows[|rows| - 1].seqNo < t.row.seqNo {
        rows := rows + [t.row];
      }
      var already := false;
      if recovering {
        already := AlreadyAudited(t);
      }
      if !already {
        trail := trail + [Transitioned(t.kind, t.row.seqNo, today)];
      }
    }

    /** `_apply_transition` */
    method ApplyTransition(recovering: bool)
      requires pending.Some?
      modifies this`rows, this`pdfs, this`content, this`trail, this`pending
      ensures View(Idle) == Run(old(View(Applying(Copy, recovering))), Advances(6))
    {
      ghost var before := View(Applying(Copy, recovering));
      var t := pending.value;
      ApplyToFiles(t, recovering);
      ApplyToRecords(t, recovering);
      pending := None;
      StraightIsStepwise(before, recovering);
    }

    /** `_commit_transition`: record it, then carry it out. */
    method CommitTransition(t: Transition)
      modifies this`rows, this`pdfs, this`content, this`trail, this`pending
      ensures View(Idle) == Finished(old(View(Applying(Copy, false))).(pending := Some(t)), false)
    {
      pending := Some(t);
      StraightIsStepwise(View(Applying(Copy, false)), false);
      ApplyTransition(false);
    }

    /** `_evaluate`, which needs no lock and changes nothing. */
    method Evaluate(row: Row, mode: Mode, extracted: Extraction, quarantineHit: bool, quarantineOnDegraded: bool, sameVerdict: bool)
      returns (judged: Option<Judgement>)
      ensures judged == Judge(content, pdfs, row, mode, extracted, quarantineHit, quarantineOnDegraded, sameVerdict)
    {
      var text: Extraction;
      var extractedLines: Option<seq<string>> := None;
      match mode {
        case Extract =>
          if row.path !in pdfs { return None; }
          text := extracted;
          extractedLines := Some(extracted.lines);
        case Rules =>
          if content.None? { return None; }
          text := Extraction(row.pageCount, if row.reason.DegradedExtraction? then 1 else 0, row.degraded, content.value);
      }
      var (to, _) := Decide(text, quarantineHit, quarantineOnDegraded);
      var same := sameVerdict &&
        (mode.Extract? ==> row.pageCount == text.pageCount && row.degraded == text.degraded);
      judged := Some(Judgement(row, to, same, extractedLines, text.pageCount, text.degraded));
    }

    /** `_write_assessment`: refused when another assessment was written since the row was read. */
    method WriteAssessment(j: Judgement) returns (written: bool)
      modifies this`rows, this`pdfs, this`content, this`trail, this`pending
      ensures written <==> old(rows == [] || rows[|rows| - 1].seqNo == j.row.seqNo)
      ensures View(Idle) == Settled(old(View(Idle)), WriteOf(old(View(Idle)), j))
      ensures old(rows != [] && rows[|rows| - 1] == j.row) ==>
                && Assessments.MovedAs(old(View(Idle)), View(Idle), j.to, j.pageCount, j.degraded)
                && content == if j.text.Some? then j.text else old(content)
    {
      if rows != [] && rows[|rows| - 1] == j.row { WrittenMoves(View(Idle), j); }
      if rows != [] && rows[|rows| - 1].seqNo != j.row.seqNo { return false; }
      var direction := Towards(j);
      var path := j.row.path;
      if direction.Escalate? { path := DestinationPath(pdfs, path, QuarantineRoot); }
      var releasePending := j.to.Archive? && (direction.Deescalate? || j.row.releasePending);
      var row := Row(j.row.seqNo + 1, Some(j.row.seqNo), j.to, releasePending, path, j.pageCount, j.degraded, NoReason);
      var t := Transition(j.row.path, row, j.text, Reassessed, today);
      assert WriteOf(View(Idle), j) == Some(t);
      CommitTransition(t);
      return true;
    }

    /** One job of `commit` that nobody interrupts: look, evaluate, and write unless nothing
        changed. */
    method Reassess(mode: Mode, extracted: Extraction, quarantineHit: bool, quarantineOnDegraded: bool, sameVerdict: bool)
      requires rows != []
      modifies this`rows, this`pdfs, this`content, this`trail, this`pending
      ensures View(Idle) ==
              Run(old(View(Idle)), Reader(0, mode, extracted, quarantineHit, quarantineOnDegraded, sameVerdict) + Advances(6))
      ensures Assessments.ReassessedAs(old(View(Idle)), View(Idle),
                Assessments.Request(mode, extracted, quarantineHit, quarantineOnDegraded, sameVerdict))
    {
      Assessments.ReassessmentLeftAlone(View(Idle), 0,
        Assessments.Request(mode, extracted, quarantineHit, quarantineOnDegraded, sameVerdict));
      ReaderEnds(View(Idle), mode, extracted, quarantineHit, quarantineOnDegraded, sameVerdict);
      var judged := Evaluate(rows[|rows| - 1], mode, extracted, quarantineHit, quarantineOnDegraded, sameVerdict);
      if judged.None? { return; }
      if !Towards(judged.value).Unchanged? {
        var written := WriteAssessment(judged.value);
      } else if judged.value.text.Some? {
        content := judged.value.text;
      }
    }

    /** `release` */
    method Release() returns (released: bool)
      modifies this`rows, this`pdfs, this`content, this`trail, this`pending
      ensures View(Idle) == Run(old(View(Idle)), [Action.Release] + Advances(6))
      ensures Assessments.ReleasedAs(old(View(Idle)), View(Idle))
      ensures released <==> old(rows != [] && rows[|rows| - 1].releasePending &&
                                (rows[|rows| - 1].path in pdfs || ArchiveRoot in pdfs))
    {
      ReleaseEnds(View(Idle));
      if rows == [] || !rows[|rows| - 1].releasePending ||
         (rows[|rows| - 1].path !in pdfs && ArchiveRoot !in pdfs) {
        return false;
      }
      var row := rows[|rows| - 1];
      var path := DestinationPath(pdfs, row.path, ArchiveRoot);
      var done := row.(seqNo := row.seqNo + 1, supersedes := Some(row.seqNo), releasePending := false,
                            path := path, reason := NoReason);
      var t := Transition(row.path, done, None, Released, today);
      assert ReleaseOf(View(Idle)) == Some(t);
      CommitTransition(t);
      return true;
    }

    /** `_recover_transitions`, for this job. From any state a run can reach the transition is
        carried out. */
    method RecoverTransitions()
      modifies this`rows, this`pdfs, this`content, this`trail, this`pending
      ensures View(Idle) == Run(old(View(Idle)), [Recover] + Advances(6))
      ensures old(pending.Some? && ContainKept(View(Idle))) ==> CarriedOut(old(View(Idle)), old(pending).value, View(Idle))
    {
      RunOne(View(Idle), Recover, Advances(6));
      if pending.Some? {
        if ContainKept(View(Idle)) { RecoveryCarriesOut(View(Idle)); }
        ApplyTransition(true);
      } else {
        RestingStays(View(Idle), 6);
      }
    }

    /** `_drop_pending_transition_text` */
    method DropPendingText() returns (dropped: bool)
      modifies this`pending
      ensures View(Idle) == TextDropped(old(View(Idle)))
      ensures dropped <==> old(pending.Some? && pending.value.text.Some?)
    {
      if pending.None? || pending.value.text.None? { return false; }
      pending := Some(pending.value.(text := None, day := today));
      return true;
    }

    /** `purge_content`: the intent is on record before anything goes. */
    method PurgeContent(hard: bool)
      modifies this`pdfs, this`content, this`trail, this`pending
      ensures View(Idle) == Run(old(View(Idle)), [Purge(hard)] + Advances(5))
      ensures Erased(View(Idle)) && rows == old(rows) && (hard ==> pdfs == {})
    {
      PurgeAlone(View(Idle), hard);
      PurgeIsStepwise(View(Idle), hard);
      trail := trail + [PurgeStarted];
      content := None;
      var dropped := DropPendingText();
      if hard {
        pdfs := pdfs - {ArchiveRoot};
        pdfs := pdfs - {QuarantineRoot};
      }
      trail := trail + [ContentPurged];
    }
  }

  // ----- straight lines and single steps

  /** What comes of a transition that is started, if one is, and left alone. */
  function Settled(w: World, t: Option<Transition>): World {
    if t.None? then w else Finished(w.(pending := t, pc := Applying(Copy, false)), false)
  }

  lemma ReleaseEnds(w: World)
    requires w.pc.Idle?
    ensures Run(w, [Action.Release] + Advances(6)) == Settled(w, ReleaseOf(w))
    ensures Assessments.ReleasedAs(w, Settled(w, ReleaseOf(w)))
  {
    Assessments.ReleaseLeftAlone(w);
    RunOne(w, Action.Release, Advances(6));
    SettledByRun(w, ReleaseOf(w));
  }

  lemma WrittenMoves(w: World, j: Judgement)
    requires w.pc.Idle? && w.rows != [] && j.row == Reassessment.Latest(w)
    ensures var after := Settled(w, WriteOf(w, j));
            Assessments.MovedAs(w, after, j.to, j.pageCount, j.degraded) && after.content == if j.text.Some? then j.text else w.content
  {
    Assessments.JudgedRow(w, j);
    assert WriteOf(w, j).value.row.seqNo == j.row.seqNo + 1;
  }

  lemma SettledByRun(w: World, t: Option<Transition>)
    requires w.pc.Idle?
    ensures Run(Recorded(w, t), Advances(6)) == Settled(w, t)
  {
    if t.None? { RestingStays(w, 6); } else { StraightIsStepwise(Recorded(w, t), false); }
  }

  lemma ReaderEnds(w: World, mode: Mode, extracted: Extraction, quarantineHit: bool, quarantineOnDegraded: bool, sameVerdict: bool)
    requires w.pc.Idle? && w.rows != [] && w.readers == map[]
    ensures Run(w, Reader(0, mode, extracted, quarantineHit, quarantineOnDegraded, sameVerdict) + Advances(6)) ==
            match Judge(w.content, w.pdfs, Reassessment.Latest(w), mode, extracted, quarantineHit, quarantineOnDegraded, sameVerdict)
            case None => w
            case Some(j) =>
              if !Towards(j).Unchanged? then Settled(w, WriteOf(w, j))
              else if j.text.Some? then w.(content := j.text)
              else w
  {
    ReaderAlone(w, 0, mode, extracted, quarantineHit, quarantineOnDegraded, sameVerdict, Advances(6));
    assert Left(w, 0) == w;
    match Judge(w.content, w.pdfs, Reassessment.Latest(w), mode, extracted, quarantineHit, quarantineOnDegraded, sameVerdict)
    case None => RestingStays(w, 6);
    case Some(j) => if Towards(j).Unchanged? { RestingStays(Written(w, j), 6); } else { SettledByRun(w, WriteOf(w, j)); }
  }

  lemma PurgeIsStepwise(w: World, hard: bool)
    requires w.pc.Idle?
    ensures var dropped := TextDropped(w);
            Run(w, [Purge(hard)] + Advances(5)) ==
            w.(trail := w.trail + [PurgeStarted] + [ContentPurged],
               content := None,
               pending := dropped.pending,
               pdfs := if hard then w.pdfs - {ArchiveRoot} - {QuarantineRoot} else w.pdfs)
  {
    RunOne(w, Purge(hard), Advances(5));
    var w0 := Next(w, Purge(hard));
    var w1 := Advanced(w0);
    RunAdvances(w0, 5);
    RunAdvances(w1, 4);
    var w2 := Advanced(w1);
    assert w2 == TextDropped(w).(trail := w.trail + [PurgeStarted], content := None, pc := if hard then PurgeArchive else PurgeDone);
    PurgeEnds(w2);
  }

  lemma PurgeEnds(w: World)
    requires w.pc.PurgeArchive? || w.pc.PurgeDone?
    ensures Run(w, Advances(3)) ==
            w.(trail := w.trail + [ContentPurged], pc := Idle,
               pdfs := if w.pc.PurgeArchive? then w.pdfs - {ArchiveRoot} - {QuarantineRoot} else w.pdfs)
  {
    var w1 := Advanced(w);
    RunAdvances(w, 3);
    if w.pc.PurgeArchive? {
      var w2 := Advanced(w1);
      RunAdvances(w1, 2);
      RunAdvances(w2, 1);
    } else {
      RestingStays(w1, 2);
    }
  }
}
