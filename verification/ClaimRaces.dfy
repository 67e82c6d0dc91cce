/**
 A claim may be finished by a caller that made an earlier one. When exactly that keeps the index
 row over a copied document, and the job at one row.
 */
module ClaimRaces {
  import opened Wrappers
  import opened CommitProtocol
  import opened CommitRuns

  // ----- what filing depends on

  // Whether a copy is marked, what was decided, where a resume would look, and what there is.
  datatype Filing = Filing(marked: bool, assessment: Option<Assessment>, day: Option<int>, pdfs: set<Place>)

  function FilingOf(w: World): Filing {
    Filing(Current(w).steps.pdf, Current(w).assessment, DayOf(w), w.pdfs)
  }

  /** The document was copied to this day's archive and to this day's quarantine. */
  predicate BothPlaces(f: Filing, day: int) {
    Place(false, day) in f.pdfs && Place(true, day) in f.pdfs
  }

  predicate Landed(f: Filing, context: Context) {
    PlaceOf(context) in f.pdfs
  }

  /** Nothing is filed for a failure; for anything else a resume would find a document. */
  predicate ResumeLands(f: Filing, a: Assessment) {
    a.verdict.Failed? || (f.day.Some? ==> Landed(f, Context(f.day.value, a)))
  }

  // ----- the guards

  /** Finishing for `day` cannot put a row over a missing document: if a copy is marked, one lies
      wherever the new verdict may say; if none is, a resume would look where this commit copies
      to, or finds one already. */
  predicate Safe(f: Filing, day: int) {
    if f.marked then BothPlaces(f, day)
    else match f.assessment
         case None => f.day == Some(day) || (f.day.Some? ==> BothPlaces(f, f.day.value))
         case Some(a) => ResumeLands(f, a)
  }

  predicate SafeFinish(w: World, day: int) {
    w.rows != map[] || Safe(FilingOf(w), day)
  }

  /** The action starts finishing a claim. */
  predicate Begins(w: World, a: Action) {
    a.Finish? && w.pc.Idle? && w.staged.Some?
  }

  predicate SafeRun(w: World, actions: seq<Action>)
    decreases |actions|
  {
    actions == [] ||
    ((Begins(w, actions[0]) ==> SafeFinish(w, actions[0].day)) && SafeRun(Next(w, actions[0]), actions[1..]))
  }

  predicate RowsOver(rows: map<int, Row>, pdfs: set<Place>) {
    forall day :: day in rows ==> rows[day].place in pdfs
  }

  // ----- what safe runs keep

  /** After this commit marks its copy, a resume still finds a document. */
  predicate Resumable(f: Filing, context: Context, a: Assessment) {
    ResumeLands(f, a) || (f.day.Some? && PlaceOf(Context(f.day.value, a)) == PlaceOf(context))
  }

  predicate StageSafe(f: Filing, context: Context, stage: Stage) {
    match stage
    case Snapshot =>
      if f.marked then Landed(f, context)
      else Resumable(f, context, if f.assessment.Some? then f.assessment.value else context.assessment)
    case CopyPdf =>
      if f.marked then Landed(f, context) else f.assessment.Some? && Resumable(f, context, f.assessment.value)
    case MarkPdf => f.assessment.Some? && Landed(f, context) && Resumable(f, context, f.assessment.value)
    case AskAudit => Landed(f, context)
    case AppendAudit => Landed(f, context)
    case MarkAudit => Landed(f, context)
    case WriteRow => Landed(f, context)
    case _ => true
  }

  predicate PcSafe(w: World) {
    match w.pc
    case Finishing(day) => SafeFinish(w, day)
    case Processing(day) => Safe(FilingOf(w), day)
    case Committing(context, stage) => StageSafe(FilingOf(w), context, stage)
    case ClaimPdf => Current(w).day.Some? && !Current(w).steps.pdf
    case _ => true
  }

  /** A copy that the manifest marks is there for whoever resumes. */
  predicate MarkSafe(f: Filing) {
    f.marked ==> f.assessment.Some? && ResumeLands(f, f.assessment.value)
  }

  predicate RowSafe(w: World) {
    RowsOver(w.rows, w.pdfs) && PcSafe(w) && MarkSafe(FilingOf(w))
  }

  /** Where neither the rows nor anything filing depends on changes. */
  lemma SafeFrame(w: World, w': World)
    requires RowSafe(w) && w'.rows == w.rows && FilingOf(w') == FilingOf(w) && PcSafe(w')
    ensures RowSafe(w')
  {
  }

  lemma SafeSnapshot(w: World, context: Context)
    requires RowSafe(w) && w.pc == Committing(context, Snapshot)
    ensures RowSafe(CommitStep(w, context, Snapshot))
  {
  }

  lemma SafeCopy(w: World, context: Context)
    requires RowSafe(w) && w.pc == Committing(context, CopyPdf)
    ensures RowSafe(CommitStep(w, context, CopyPdf))
  {
  }

  lemma SafeMark(w: World, context: Context)
    requires RowSafe(w) && w.pc == Committing(context, MarkPdf)
    ensures RowSafe(CommitStep(w, context, MarkPdf))
  {
  }

  lemma FilingStays(w: World, context: Context, stage: Stage)
    requires !stage.Snapshot? && !stage.CopyPdf? && !stage.MarkPdf?
    ensures FilingOf(CommitStep(w, context, stage)) == FilingOf(w)
  {
  }

  lemma SafeRow(w: World, context: Context)
    requires RowSafe(w) && w.pc == Committing(context, WriteRow)
    ensures RowSafe(CommitStep(w, context, WriteRow))
  {
    FilingStays(w, context, WriteRow);
  }

  lemma SafeLater(w: World, context: Context, stage: Stage)
    requires RowSafe(w) && w.pc == Committing(context, stage)
    requires !stage.Snapshot? && !stage.CopyPdf? && !stage.MarkPdf? && !stage.WriteRow?
    ensures RowSafe(CommitStep(w, context, stage))
  {
    FilingStays(w, context, stage);
    SafeFrame(w, CommitStep(w, context, stage));
  }

  lemma SafeCommitStep(w: World, context: Context, stage: Stage)
    requires RowSafe(w) && w.pc == Committing(context, stage)
    ensures RowSafe(CommitStep(w, context, stage))
  {
    if stage.Snapshot? {
      SafeSnapshot(w, context);
    } else if stage.CopyPdf? {
      SafeCopy(w, context);
    } else if stage.MarkPdf? {
      SafeMark(w, context);
    } else if stage.WriteRow? {
      SafeRow(w, context);
    } else {
      SafeLater(w, context, stage);
    }
  }

  lemma SafeFinishing(w: World, outcome: Assessment, manifestFirst: bool)
    requires RowSafe(w) && w.pc.Finishing?
    ensures RowSafe(Advanced(w, outcome, manifestFirst))
  {
    SafeFrame(w, Advanced(w, outcome, manifestFirst));
  }

  lemma SafeProcessing(w: World, outcome: Assessment, manifestFirst: bool)
    requires RowSafe(w) && w.pc.Processing?
    ensures RowSafe(Advanced(w, outcome, manifestFirst))
  {
    var w' := Advanced(w, outcome, manifestFirst);
    assert w' == w.(trail := w'.trail, pc := w'.pc);
    SafeFrame(w, w');
  }

  lemma SafeClaim(w: World, outcome: Assessment, manifestFirst: bool)
    requires RowSafe(w) && (w.pc.ClaimPdf? || w.pc.ClaimReceipt?)
    ensures RowSafe(Advanced(w, outcome, manifestFirst))
  {
  }

  lemma SafeDuplicate(w: World, outcome: Assessment, manifestFirst: bool)
    requires RowSafe(w) && (w.pc.DuplicateClose? || w.pc.DuplicateAudit?)
    ensures RowSafe(Advanced(w, outcome, manifestFirst))
  {
  }

  lemma SafeFailing(w: World, outcome: Assessment, manifestFirst: bool)
    requires RowSafe(w) && FailsFailed(w) && (w.pc.FailSnapshot? || w.pc.FailCopy? || w.pc.FailClose?)
    ensures RowSafe(Advanced(w, outcome, manifestFirst))
  {
  }

  /** Only a failure is recorded as one. */
  predicate FailsFailed(w: World) {
    w.pc.FailSnapshot? ==> w.pc.context.assessment.verdict.Failed?
  }

  lemma RemovedFiling(w: World, manifestFirst: bool)
    requires w.pc.Removing?
    ensures var w' := Removed(w, manifestFirst);
            && w'.rows == w.rows && w'.pdfs == w.pdfs && (w'.pc.Idle? || w'.pc.Removing?)
            && (FilingOf(w') == FilingOf(w) || !FilingOf(w').marked ||
                (FilingOf(w').day.None? && FilingOf(w').assessment == FilingOf(w).assessment))
  {
  }

  lemma SafeRemoving(w: World, outcome: Assessment, manifestFirst: bool)
    requires RowSafe(w) && w.pc.Removing?
    ensures RowSafe(Advanced(w, outcome, manifestFirst))
  {
    RemovedFiling(w, manifestFirst);
  }

  lemma SafeResume(w: World)
    requires RowSafe(w) && w.pc.Idle?
    ensures RowSafe(Resumed(w))
  {
    ResumeOnlyBegins(w);
    assert FilingOf(Resumed(w)) == FilingOf(w);
  }

  lemma SafeAdvance(w: World, outcome: Assessment, manifestFirst: bool)
    requires RowSafe(w) && FailsFailed(w)
    ensures RowSafe(Advanced(w, outcome, manifestFirst))
  {
    match w.pc
    case Idle =>
    case ClaimPdf => SafeClaim(w, outcome, manifestFirst);
    case ClaimReceipt => SafeClaim(w, outcome, manifestFirst);
    case Finishing(_) => SafeFinishing(w, outcome, manifestFirst);
    case DuplicateClose => SafeDuplicate(w, outcome, manifestFirst);
    case DuplicateAudit => SafeDuplicate(w, outcome, manifestFirst);
    case Processing(_) => SafeProcessing(w, outcome, manifestFirst);
    case Committing(context, stage) => SafeCommitStep(w, context, stage);
    case Removing => SafeRemoving(w, outcome, manifestFirst);
    case _ => SafeFailing(w, outcome, manifestFirst);
  }

  lemma SafeOutside(w: World, a: Action)
    requires RowSafe(w) && !a.Advance? && !a.Resume? && !a.Arrive? && (Begins(w, a) ==> SafeFinish(w, a.day))
    ensures RowSafe(Next(w, a))
  {
    var w' := Next(w, a);
    assert w'.rows == w.rows && FilingOf(w') == FilingOf(w);
  }

  lemma SafeArrival(w: World)
    requires RowSafe(w)
    ensures RowSafe(Next(w, Arrive))
  {
  }

  lemma SafeStep(w: World, a: Action)
    requires RowSafe(w) && FailsFailed(w) && (Begins(w, a) ==> SafeFinish(w, a.day))
    ensures RowSafe(Next(w, a))
  {
    if a.Advance? {
      SafeAdvance(w, a.outcome, a.manifestFirst);
    } else if a.Resume? {
      if w.pc.Idle? { SafeResume(w); }
    } else if a.Arrive? {
      SafeArrival(w);
    } else {
      SafeOutside(w, a);
    }
  }

  lemma FailsStep(w: World, a: Action)
    requires FailsFailed(w)
    ensures FailsFailed(Next(w, a))
  {
    if a.Resume? && w.pc.Idle? { ResumeOnlyBegins(w); }
  }

  lemma {:induction false} SafeOverRuns(w: World, actions: seq<Action>)
    requires RowSafe(w) && FailsFailed(w) && SafeRun(w, actions)
    ensures RowSafe(Run(w, actions)) && FailsFailed(Run(w, actions))
    decreases |actions|
  {
    if actions != [] {
      SafeStep(w, actions[0]);
      FailsStep(w, actions[0]);
      SafeOverRuns(Next(w, actions[0]), actions[1..]);
    }
  }

  /** Wherever a crash falls, an index row names a place the document was already copied to, as
      long as every claim is finished when its guard holds. */
  lemma RowStandsOverDocument(today: int, actions: seq<Action>)
    requires SafeRun(Start(today), actions)
    ensures RowsOver(Run(Start(today), actions).rows, Run(Start(today), actions).pdfs)
  {
    SafeOverRuns(Start(today), actions);
  }

  // ----- what an unsafe finish can come to

  lemma RowWritten(w: World, context: Context, a: Action)
    requires w.pc == Committing(context, WriteRow) && !Current(w).steps.stored && a.Advance?
    ensures var w' := Next(w, a);
            && w' == w.(rows := w.rows[context.day := RowOf(w, context)], pc := Committing(context, WriteContent))
  {
  }

  /** From the question about the audit event on, one row is written and no document copied. */
  lemma RowFollows(w: World, context: Context, outcome: Assessment) returns (actions: seq<Action>)
    requires w.pc == Committing(context, AskAudit) && !Current(w).steps.stored
    ensures forall i :: 0 <= i < |actions| ==> actions[i].Advance?
    ensures var w' := Run(w, actions);
            && w'.pdfs == w.pdfs && w'.staged == w.staged && w'.pc.Committing?
            && w'.rows.Keys == w.rows.Keys + {context.day} && w'.rows[context.day].place == PlaceOf(context)
            && Current(w') == Current(w).(steps := Current(w').steps)
            && Current(w').steps == Current(w).steps.(auditStarted := Current(w').steps.auditStarted, audited := true)
  {
    var a := Advance(outcome, true);
    var w1 := Next(w, a);
    if w1.pc == Committing(context, AppendAudit) {
      var w3 := Next(Next(w1, a), a);
      assert w3.pc == Committing(context, WriteRow) && !Current(w3).steps.stored && w3.pdfs == w.pdfs;
      RowWritten(w3, context, a);
      RunFour(w, a, a, a, a);
      actions := [a, a, a, a];
    } else {
      var w2 := Next(w1, a);
      assert w2.pc == Committing(context, WriteRow) && !Current(w2).steps.stored && w2.pdfs == w.pdfs;
      RowWritten(w2, context, a);
      RunThree(w, a, a, a);
      actions := [a, a, a];
    }
  }

  lemma RunFour(w: World, a: Action, b: Action, c: Action, d: Action)
    ensures Run(w, [a, b, c, d]) == Next(Next(Next(Next(w, a), b), c), d)
  {
    assert [a, b, c, d][1..] == [b, c, d];
    RunThree(Next(w, a), b, c, d);
  }

  /** From the snapshot of an assessed job to that question: with the copy marked nothing is
      written, without it the document is copied and marked. */
  lemma SkipsCopy(w: World, context: Context, outcome: Assessment) returns (w': World, actions: seq<Action>)
    requires w.pc == Committing(context, Snapshot) && Current(w).assessment.Some? && Current(w).steps.pdf
    ensures w' == Run(w, actions) && w' == w.(pc := Committing(context, AskAudit))
    ensures forall i :: 0 <= i < |actions| ==> actions[i].Advance?
  {
    var a := Advance(outcome, true);
    actions := [a, a];
    w' := Next(Next(w, a), a);
    RunTwo(w, a, a);
  }

  lemma Copies(w: World, context: Context, outcome: Assessment) returns (w': World, actions: seq<Action>)
    requires w.pc == Committing(context, Snapshot) && !Current(w).steps.pdf
    ensures w' == Run(w, actions) && w'.pc == Committing(context, AskAudit)
    ensures w'.pdfs == w.pdfs + {PlaceOf(context)} && w'.rows == w.rows && w'.staged == w.staged && w'.manifest.Some?
    ensures Current(w') == Current(w).(steps := Current(w').steps, assessment := Current(w').assessment)
    ensures Current(w').steps == Current(w).steps.(pdf := true, assessed := Current(w').steps.assessed)
    ensures Current(w').assessment == if Current(w).assessment.Some? then Current(w).assessment else Some(context.assessment)
    ensures forall i :: 0 <= i < |actions| ==> actions[i].Advance?
  {
    var a := Advance(outcome, true);
    actions := [a, a, a];
    RunThree(w, a, a, a);
    var w1 := Next(w, a);
    assert w1.pc == Committing(context, CopyPdf) && !Current(w1).steps.pdf;
    var w2 := Next(w1, a);
    w' := Next(w2, a);
  }

  lemma Processes(w: World, day: int, outcome: Assessment) returns (w': World, actions: seq<Action>)
    requires w.pc.Idle? && w.staged.Some? && w.rows == map[] && !outcome.verdict.Failed?
    ensures w' == Run(w, actions) && w' == w.(pc := Committing(Context(day, outcome), Snapshot))
    ensures actions != [] && actions[0] == Finish(day)
    ensures forall i :: 1 <= i < |actions| ==> actions[i].Advance?
  {
    var a := Advance(outcome, true);
    actions := [Finish(day), a, a];
    RunThree(w, Finish(day), a, a);
    w' := Next(Next(Next(w, Finish(day)), a), a);
  }

  /** Dying after the copy and resuming: the commit starts again with what the manifest says. */
  lemma DiesAndResumes(w: World) returns (w': World)
    requires w.pc.Committing? && w.staged.Some? && Current(w).assessment.Some? && !Uncertain(Current(w))
    requires !Current(w).assessment.value.verdict.Failed?
    ensures w' == Run(w, [Crash, Resume])
    ensures w' == w.(receipts := w'.receipts, pc := Committing(Context(DayOf(w).value, Current(w).assessment.value), Snapshot))
  {
    var dead := Next(w, Crash);
    RunTwo(w, Crash, Resume);
    w' := Next(dead, Resume);
    ResumeOnlyBegins(dead);
  }

  /** The three ways an unsafe finish loses the document: a marked copy elsewhere; a copy for
      another day; a copy for another verdict. */
  lemma MarkedElsewhere(w: World, day: int, outcome: Assessment) returns (actions: seq<Action>)
    requires Startable(w) && Current(w).steps.pdf && Current(w).assessment.Some?
    requires !outcome.verdict.Failed? && !Landed(FilingOf(w), Context(day, outcome))
    ensures FinishesOnce(actions, day) && Loses(Run(w, actions))
  {
    var context := Context(day, outcome);
    var w1, a1 := Processes(w, day, outcome);
    var w2, a2 := SkipsCopy(w1, context, outcome);
    var a3 := RowFollows(w2, context, outcome);
    RunConcat(w, a1, a2);
    RunConcat(w, a1 + a2, a3);
    actions := a1 + a2 + a3;
  }

  lemma CopiedElsewhere(w: World, day: int, outcome: Assessment) returns (actions: seq<Action>)
    requires Startable(w) && !Current(w).steps.pdf && !outcome.verdict.Failed?
    requires var a := if Current(w).assessment.Some? then Current(w).assessment.value else outcome;
             var resumed := Context(DayOf(w).value, a);
             !a.verdict.Failed? && !Landed(FilingOf(w), resumed) && PlaceOf(resumed) != PlaceOf(Context(day, outcome))
    ensures FinishesOnce(actions, day) && Loses(Run(w, actions))
  {
    var context := Context(day, outcome);
    var w1, a1 := Processes(w, day, outcome);
    var w2, a2 := Copies(w1, context, outcome);
    var w3 := DiesAndResumes(w2);
    var again := w3.pc.context;
    assert again.day == DayOf(w).value && DayOf(w2) == DayOf(w);
    var w4, a4 := SkipsCopy(w3, again, outcome);
    var a5 := RowFollows(w4, again, outcome);
    RunConcat(w, a1, a2);
    RunConcat(w, a1 + a2, [Crash, Resume]);
    RunConcat(w, a1 + a2 + [Crash, Resume], a4);
    RunConcat(w, a1 + a2 + [Crash, Resume] + a4, a5);
    actions := a1 + a2 + [Crash, Resume] + a4 + a5;
  }

  predicate Startable(w: World) {
    w.pc.Idle? && w.staged.Some? && w.rows == map[] && RowSafe(w) && EmitKept(w)
  }

  predicate Loses(w: World) {
    !RowsOver(w.rows, w.pdfs)
  }

  /** The claim is finished for this day, and nobody else finishes one. */
  predicate FinishesOnce(actions: seq<Action>, day: int) {
    actions != [] && actions[0] == Finish(day) && forall i :: 1 <= i < |actions| ==> !actions[i].Finish?
  }

  function Outcome(quarantined: bool): Assessment {
    Assessment(if quarantined then ToQuarantine else ToArchive, "rules", "text")
  }

  lemma {:induction false} UnsafeFinishLoses(w: World, day: int) returns (actions: seq<Action>)
    requires Startable(w) && !SafeFinish(w, day)
    ensures FinishesOnce(actions, day) && Loses(Run(w, actions))
  {
    var f := FilingOf(w);
    if f.marked {
      actions := MarkedElsewhere(w, day, Outcome(Place(false, day) in f.pdfs));
    } else if f.assessment.None? {
      actions := CopiedElsewhere(w, day, Outcome(Place(false, f.day.value) in f.pdfs));
    } else {
      actions := CopiedElsewhere(w, day, Outcome(!f.assessment.value.verdict.ToQuarantine?));
    }
  }

  /** Without another `Finish` there is nothing more to guard. */
  lemma {:induction false} UnfinishedIsSafe(w: World, actions: seq<Action>)
    requires forall i :: 0 <= i < |actions| ==> !actions[i].Finish?
    ensures SafeRun(w, actions)
    decreases |actions|
  {
    if actions != [] { UnfinishedIsSafe(Next(w, actions[0]), actions[1..]); }
  }

  lemma FirstStep(w: World, actions: seq<Action>, day: int)
    requires FinishesOnce(actions, day) && (Begins(w, actions[0]) ==> SafeFinish(w, day))
    ensures SafeRun(w, actions)
  {
    UnfinishedIsSafe(Next(w, actions[0]), actions[1..]);
  }

  /** The guard is exact. In whatever state safe runs lead to, a claim may be finished for `day`
      if and only if nothing that may follow, crashes and resumes and new arrivals included, ever
      puts a row over a document that was not copied. */
  lemma FinishIsSafeExactly(today: int, actions: seq<Action>, day: int)
    requires SafeRun(Start(today), actions)
    requires Run(Start(today), actions).pc.Idle? && Run(Start(today), actions).staged.Some?
    ensures var w := Run(Start(today), actions);
            SafeFinish(w, day) <==>
            forall rest | FinishesOnce(rest, day) :: RowsOver(Run(w, rest).rows, Run(w, rest).pdfs)
  {
    var w := Run(Start(today), actions);
    SafeOverRuns(Start(today), actions);
    EmitOverRuns(Start(today), actions);
    if SafeFinish(w, day) {
      forall rest | FinishesOnce(rest, day) ensures RowsOver(Run(w, rest).rows, Run(w, rest).pdfs) {
        FirstStep(w, rest, day);
        SafeOverRuns(w, rest);
      }
    } else {
      var rest := UnsafeFinishLoses(w, day);
      assert FinishesOnce(rest, day) && Loses(Run(w, rest));
    }
  }

  // ----- two claims around midnight

  /** Two arrivals of the same bytes claim one after the other around midnight, and the first one
      goes on to finish what it claimed: nobody checks that the claim is still its own. */
  lemma StaleClaimLosesTheDocument() returns (actions: seq<Action>)
    ensures Loses(Run(Start(0), actions))
  {
    var a := Advance(Outcome(false), true);
    var w1 := Next(Next(Next(Start(0), Arrive), a), a);
    RunThree(Start(0), Arrive, a, a);
    assert w1 == World(Some(Manifest(Some(0), Some(0), NO_STEPS, None)), Some(0), {}, [], map[], map[],
                       map[0 := Received], false, 0, 0, 1, 0, Idle);
    var w2 := Next(Next(Next(Next(w1, NextDay(1)), Arrive), a), a);
    RunFour(w1, NextDay(1), Arrive, a, a);
    var claims := [Arrive, a, a] + [NextDay(1), Arrive, a, a];
    RunConcat(Start(0), [Arrive, a, a], [NextDay(1), Arrive, a, a]);
    assert DayOf(w2) == Some(1) && w2.pdfs == {} && Startable(w2);
    var rest := UnsafeFinishLoses(w2, 0);
    RunConcat(Start(0), claims, rest);
    actions := claims + rest;
  }
}
