/**
 What a commit leaves behind, said outright: where the document goes, what its row, its content
 and its event say, and that nothing is ever filed but what processing decided.
 */
module CommitOutcome {
  import opened Wrappers
  import opened CommitProtocol
  import opened Committer
  import CommitRuns

  // ----- a claim that is left alone

  function Alone(outcome: Assessment, n: nat): seq<Action> {
    seq(n, _ => Advance(outcome, true))
  }

  lemma {:induction false} AloneConcat(w: World, outcome: Assessment, m: nat, n: nat)
    ensures Run(w, Alone(outcome, m + n)) == Run(Run(w, Alone(outcome, m)), Alone(outcome, n))
    decreases m
  {
    if m > 0 {
      assert Alone(outcome, m + n)[1..] == Alone(outcome, m - 1 + n);
      assert Alone(outcome, m)[1..] == Alone(outcome, m - 1);
      AloneConcat(Advanced(w, outcome, true), outcome, m - 1, n);
    }
  }

  lemma AloneStep(w: World, outcome: Assessment, n: nat)
    ensures Run(w, Alone(outcome, n + 1)) == Run(Advanced(w, outcome, true), Alone(outcome, n))
  {
    assert Alone(outcome, n + 1)[1..] == Alone(outcome, n);
  }

  lemma {:induction false} StagesAreSteps(w: World, outcome: Assessment) returns (n: nat)
    ensures Run(w, Alone(outcome, n)) == Stages(w)
    decreases if w.pc.Committing? then 1 + Rank(w.pc.stage) else 0
  {
    if !w.pc.Committing? {
      n := 0;
    } else {
      StagesFall(w, w.pc.context, w.pc.stage);
      n := StagesAreSteps(CommitStep(w, w.pc.context, w.pc.stage), outcome);
      AloneStep(w, outcome, n);
      n := n + 1;
    }
  }

  /** A claim of this job, fresh from the drop folder. */
  predicate Fresh(w: World, receipt: nat, day: int) {
    w.manifest == Some(Manifest(Some(receipt), Some(day), NO_STEPS, None)) && receipt in w.receipts
  }

  /** Everything a commit of a fresh claim writes, and nothing else: the document goes to the
      quarantine of its day if that is the verdict and to that day's archive if not. */
  ghost predicate FiledAfter(w: World, done: World, receipt: nat, day: int, a: Assessment) {
    && done.pdfs == w.pdfs + {Place(a.verdict == ToQuarantine, day)}
    && done.trail == w.trail + [Completed(Some(receipt), a.verdict, w.today)]
    && done.rows == w.rows[day := Row(a.verdict, Place(a.verdict == ToQuarantine, day), a.ruleset)]
    && done.content == w.content[day := a.text]
    && done.receipts == w.receipts[receipt := Closed(a.verdict)]
    && !done.failed
    && done.emits == w.emits + 1
    && done.confirmed == w.confirmed && done.nextReceipt == w.nextReceipt && done.today == w.today
  }

  lemma FreshFiling(w: World, receipt: nat, day: int, a: Assessment)
    requires Fresh(w, receipt, day)
    ensures var filed := Filed(w, Context(day, a));
            && filed == w.(manifest := filed.manifest, pdfs := w.pdfs + {Place(a.verdict == ToQuarantine, day)})
            && filed.manifest == Some(Manifest(Some(receipt), Some(day), NO_STEPS.(assessed := true, pdf := true), Some(a)))
  {
  }

  lemma FreshCompletion(w: World, receipt: nat, day: int, a: Assessment)
    requires w.manifest == Some(Manifest(Some(receipt), Some(day), NO_STEPS.(assessed := true, pdf := true), Some(a)))
    ensures var done := Completions(w, Context(day, a));
            && done == w.(manifest := done.manifest, trail := w.trail + [Completed(Some(receipt), a.verdict, w.today)])
            && done.manifest == Some(Manifest(Some(receipt), Some(day),
                                     NO_STEPS.(assessed := true, pdf := true, auditStarted := true, audited := true), Some(a)))
  {
    assert !AlreadyAudited(w);
  }

  lemma FreshStores(w: World, receipt: nat, day: int, a: Assessment)
    requires w.manifest == Some(Manifest(Some(receipt), Some(day),
                                NO_STEPS.(assessed := true, pdf := true, auditStarted := true, audited := true), Some(a)))
    ensures var done := EmittedOnce(StoresWritten(w, Context(day, a)));
            && done == w.(manifest := done.manifest,
                          rows := w.rows[day := Row(a.verdict, Place(a.verdict == ToQuarantine, day), a.ruleset)],
                          content := w.content[day := a.text], emits := w.emits + 1)
            && Current(done).receipt == Some(receipt) && !Uncertain(Current(StoresWritten(w, Context(day, a))))
  {
  }

  /** The commit of a fresh claim, in one piece. */
  lemma FreshCommit(w: World, receipt: nat, day: int, a: Assessment)
    requires Fresh(w, receipt, day)
    ensures var done := Stages(To(w, Context(day, a), Snapshot));
            FiledAfter(w, done, receipt, day, a) && done.pc.Removing? && done.staged == w.staged && done.manifest.Some?
  {
    var context := Context(day, a);
    FilingStages(w, context);
    FreshFiling(w, receipt, day, a);
    var filed := Filed(w, context);
    CompletionStages(filed, context);
    FreshCompletion(filed, receipt, day, a);
    var audited := Completions(filed, context);
    StoringStages(audited, context);
    FreshStores(audited, receipt, day, a);
    var stored := StoresWritten(audited, context);
    EmittingStages(stored, context);
    ClosingStages(EmittedOnce(stored), context);
  }

  /** The claim itself: a fresh receipt and a staged copy, whatever was staged here before. */
  lemma Claims(w: World, outcome: Assessment)
    requires w.pc.Idle?
    ensures var claimed := Run(w, [Arrive] + Alone(outcome, 2));
            && claimed == w.(manifest := claimed.manifest, staged := Some(w.today),
                             receipts := w.receipts[w.nextReceipt := Received], nextReceipt := w.nextReceipt + 1)
            && Fresh(claimed, w.nextReceipt, w.today)
  {
    var w1 := Next(w, Arrive);
    CommitRuns.RunConcat(w, [Arrive], Alone(outcome, 2));
    assert [Arrive][1..] == [];
    AloneStep(w1, outcome, 1);
    AloneStep(Advanced(w1, outcome, true), outcome, 0);
  }

  /** The staging directory goes, and nothing else does. */
  lemma Empties(w: World, outcome: Assessment) returns (n: nat)
    requires w.pc.Removing? && w.manifest.Some? && w.staged.Some?
    ensures Run(w, Alone(outcome, n)) == w.(manifest := None, staged := None, pc := Idle)
  {
    n := 3;
    AloneStep(w, outcome, 2);
    var w1 := Advanced(w, outcome, true);
    AloneStep(w1, outcome, 1);
    AloneStep(Advanced(w1, outcome, true), outcome, 0);
  }

  /** What the job has once the claim of a document has been left alone to its end. */
  ghost predicate Outcome(w: World, done: World, a: Assessment) {
    var receipt := w.nextReceipt;
    && done.pc.Idle? && done.manifest.None? && done.staged.None?
    && done.nextReceipt == receipt + 1 && done.today == w.today && done.confirmed == w.confirmed
    && if w.rows != map[] then
         && done.trail == w.trail + [ReceivedAgain(receipt)]
         && done.receipts == w.receipts[receipt := Duplicate]
         && done.pdfs == w.pdfs && done.rows == w.rows && done.content == w.content
         && done.failed == w.failed && done.emits == w.emits
       else if a.verdict == Failed then
         && done.trail == w.trail + [JobFailed]
         && done.receipts == w.receipts[receipt := Closed(Failed)]
         && done.pdfs == w.pdfs && done.rows == w.rows && done.content == w.content
         && done.failed && done.emits == w.emits
       else
         && done.trail == w.trail + [Completed(Some(receipt), a.verdict, w.today)]
         && done.receipts == w.receipts[receipt := Closed(a.verdict)]
         && done.pdfs == w.pdfs + {Place(a.verdict == ToQuarantine, w.today)}
         && done.rows == map[w.today := Row(a.verdict, Place(a.verdict == ToQuarantine, w.today), a.ruleset)]
         && done.content == w.content[w.today := a.text]
         && !done.failed && done.emits == w.emits + 1
  }

  lemma ResolvesDuplicate(w: World, receipt: nat, outcome: Assessment) returns (n: nat)
    requires w.rows != map[] && w.pc == Finishing(w.today) && Fresh(w, receipt, w.today) && w.staged.Some?
    ensures Run(w, Alone(outcome, n)) ==
            w.(manifest := None, staged := None, pc := Idle, receipts := w.receipts[receipt := Duplicate],
               trail := w.trail + [ReceivedAgain(receipt)])
  {
    var w1 := Advanced(w, outcome, true);
    var w2 := Advanced(w1, outcome, true);
    var w3 := Advanced(w2, outcome, true);
    n := Empties(w3, outcome);
    AloneStep(w2, outcome, n);
    AloneStep(w1, outcome, n + 1);
    AloneStep(w, outcome, n + 2);
    n := n + 3;
  }

  lemma ResolvesFailure(w: World, receipt: nat, outcome: Assessment) returns (n: nat)
    requires outcome.verdict.Failed? && w.pc == Processing(w.today) && Fresh(w, receipt, w.today) && w.staged.Some?
    ensures Run(w, Alone(outcome, n)) ==
            w.(manifest := None, staged := None, pc := Idle, receipts := w.receipts[receipt := Closed(Failed)],
               trail := w.trail + [JobFailed], failed := true)
  {
    var w1 := Advanced(w, outcome, true);
    var w2 := Advanced(w1, outcome, true);
    var w3 := Advanced(w2, outcome, true);
    var w4 := Advanced(w3, outcome, true);
    n := Empties(w4, outcome);
    AloneStep(w3, outcome, n);
    AloneStep(w2, outcome, n + 1);
    AloneStep(w1, outcome, n + 2);
    AloneStep(w, outcome, n + 3);
    n := n + 4;
  }

  lemma ResolvesCommit(w: World, receipt: nat, outcome: Assessment) returns (n: nat)
    requires !outcome.verdict.Failed? && w.pc == Processing(w.today) && Fresh(w, receipt, w.today) && w.staged.Some?
    ensures var done := Run(w, Alone(outcome, n));
            FiledAfter(w, done, receipt, w.today, outcome) && done.pc.Idle? && done.manifest.None? && done.staged.None?
  {
    var w1 := Advanced(w, outcome, true);
    FreshCommit(w, receipt, w.today, outcome);
    var w2 := Stages(w1);
    var k := StagesAreSteps(w1, outcome);
    n := Empties(w2, outcome);
    AloneConcat(w1, outcome, k, n);
    AloneStep(w, outcome, k + n);
    n := 1 + k + n;
  }

  lemma Resolves(w: World, claimed: World, outcome: Assessment) returns (n: nat)
    requires w.pc.Idle? && Fresh(claimed, w.nextReceipt, w.today)
    requires claimed == w.(manifest := claimed.manifest, staged := Some(w.today),
                           receipts := w.receipts[w.nextReceipt := Received], nextReceipt := w.nextReceipt + 1)
    ensures Outcome(w, Run(Next(claimed, Finish(w.today)), Alone(outcome, n)), outcome)
  {
    var w1 := Next(claimed, Finish(w.today));
    if w.rows != map[] {
      n := ResolvesDuplicate(w1, w.nextReceipt, outcome);
    } else {
      var w2 := Advanced(w1, outcome, true);
      if outcome.verdict.Failed? {
        n := ResolvesFailure(w2, w.nextReceipt, outcome);
      } else {
        n := ResolvesCommit(w2, w.nextReceipt, outcome);
      }
      AloneStep(w1, outcome, n);
      n := n + 1;
    }
  }

  /** A claim that is left alone, in whatever state the job was: an indexed job takes the arrival
      as a duplicate, a failure is kept apart with nothing filed, and otherwise the document lies
      in the root its verdict names, with its row, its content and one completion saying so. */
  lemma ClaimLeftAlone(w: World, outcome: Assessment) returns (n: nat)
    requires w.pc.Idle?
    ensures Outcome(w, Run(w, [Arrive] + Alone(outcome, 2) + ([Finish(w.today)] + Alone(outcome, n))), outcome)
  {
    Claims(w, outcome);
    var claimed := Run(w, [Arrive] + Alone(outcome, 2));
    n := Resolves(w, claimed, outcome);
    CommitRuns.RunConcat(w, [Arrive] + Alone(outcome, 2), [Finish(w.today)] + Alone(outcome, n));
    CommitRuns.RunConcat(claimed, [Finish(w.today)], Alone(outcome, n));
    assert [Finish(w.today)][1..] == [];
  }

  // ----- a resume that is left alone

  lemma EmptiesWhatIsLeft(w: World, outcome: Assessment) returns (n: nat)
    requires w.pc.Removing?
    ensures Run(w, Alone(outcome, n)) == w.(manifest := None, staged := None, pc := Idle)
  {
    if w.manifest.Some? && w.staged.Some? {
      n := Empties(w, outcome);
    } else if w.manifest.Some? || w.staged.Some? {
      AloneStep(w, outcome, 1);
      AloneStep(Advanced(w, outcome, true), outcome, 0);
      n := 2;
    } else {
      AloneStep(w, outcome, 0);
      n := 1;
    }
  }

  function Durable(w: World, context: Context): World {
    StoresWritten(Completions(Filed(w, context), context), context)
  }

  lemma CommitEnds(w: World, context: Context)
    requires w.pc == Committing(context, Snapshot) && !Uncertain(Current(Durable(w, context)))
    ensures Stages(w) ==
            ReceiptClosed(EmittedOnce(Durable(w, context)), Closed(context.assessment.verdict)).(failed := false, pc := Removing)
  {
    FilingStages(w, context);
    var filed := Filed(w, context);
    CompletionStages(filed, context);
    StoringStages(Completions(filed, context), context);
    EmittingStages(Durable(w, context), context);
    ClosingStages(EmittedOnce(Durable(w, context)), context);
    assert To(w, context, Snapshot) == w;
  }

  /** A commit from its first stage on, whatever of it was done before. */
  lemma CommitLeftAlone(w: World, context: Context, outcome: Assessment) returns (n: nat)
    requires w.pc == Committing(context, Snapshot) && !Uncertain(Current(w))
    ensures var done := Run(w, Alone(outcome, n));
            StoredAs(w, done, context) && EndedAs(w, done, context, true, None) && done.pc.Idle?
  {
    CommitSays(w, context);
    CommitEnds(w, context);
    var k := StagesAreSteps(w, outcome);
    n := EmptiesWhatIsLeft(Stages(w), outcome);
    AloneConcat(w, outcome, k, n);
    n := k + n;
  }

  lemma CommitSays(w: World, context: Context)
    requires !Uncertain(Current(w))
    ensures !Uncertain(Current(Durable(w, context)))
    ensures var done := ReceiptClosed(EmittedOnce(Durable(w, context)), Closed(context.assessment.verdict))
                          .(failed := false, pc := Removing).(manifest := None, staged := None, pc := Idle);
            StoredAs(w, done, context) && EndedAs(w, done, context, true, None)
  {
    RecordSays(w, context);
    ReleasedSays(w, Durable(w, context), context, None);
    ReleasedIgnoresPc(w, EmittedOnce(Durable(w, context)), context);
  }

  lemma ReleasedIgnoresPc(w: World, emitted: World, context: Context)
    requires var done := ReceiptClosed(emitted, Closed(context.assessment.verdict)).(failed := false, manifest := None, staged := None);
             StoredAs(w, done, context) && EndedAs(w, done, context, true, None)
    ensures var done := ReceiptClosed(emitted, Closed(context.assessment.verdict)).(failed := false, pc := Removing)
                          .(manifest := None, staged := None, pc := Idle);
            StoredAs(w, done, context) && EndedAs(w, done, context, true, None)
  {
  }

  /** The receipt a manifest names, made again if its write was lost. */
  function Known(w: World): World {
    match Current(w).receipt
    case Some(r) => if r in w.receipts then w else w.(receipts := w.receipts[r := Received])
    case None => w
  }

  /** What the end of this receipt is, if there is one. */
  function Concluded(w: World, status: Status): map<nat, Status> {
    if Current(w).receipt.Some? then w.receipts[Current(w).receipt.value := status] else w.receipts
  }

  /** What the job has once a claim found in staging has been resumed and left alone to its end. A
      recorded decision is carried out under the day of its receipt, or of the staged file if the
      manifest is gone; without one the document is a duplicate or is processed. */
  ghost predicate ResumedAs(w: World, done: World, outcome: Assessment)
    requires w.staged.Some?
  {
    var m := Current(w);
    var day := if m.day.Some? then m.day.value else w.staged.value;
    && done.pc.Idle?
    && match m.assessment
       case Some(a) => CarriedOut(w, done, Context(day, a), w.trail)
       case None => if w.rows != map[] then Duplicated(w, done)
                    else CarriedOut(w, done, Context(day, outcome), w.trail + [JobFailed])
  }

  ghost predicate Duplicated(w: World, done: World) {
    && done.manifest.None? && done.staged.None? && done.failed == w.failed
    && done.receipts == Concluded(w, Duplicate)
    && done.trail == (if Current(w).receipt.Some? then w.trail + [ReceivedAgain(Current(w).receipt.value)] else w.trail)
    && done.pdfs == w.pdfs && done.rows == w.rows && done.content == w.content && done.emits == w.emits
  }

  /** A failure is kept apart; anything else is committed. */
  ghost predicate CarriedOut(w: World, done: World, context: Context, failure: seq<Event>) {
    if context.assessment.verdict == Failed then
      && done.manifest.None? && done.staged.None? && done.failed
      && done.receipts == Concluded(w, Closed(Failed)) && done.trail == failure
      && done.pdfs == w.pdfs && done.rows == w.rows && done.content == w.content && done.emits == w.emits
    else StoredAs(Known(w), done, context) && EndedAs(Known(w), done, context, true, None)
  }

  lemma DuplicateSteps(w: World, outcome: Assessment)
    requires w.rows != map[] && w.pc.Finishing?
    requires Current(w).receipt.Some? ==> Current(w).receipt.value in w.receipts
    ensures Run(w, Alone(outcome, 3)) ==
            w.(pc := Removing, receipts := Concluded(w, Duplicate),
               trail := if Current(w).receipt.Some? then w.trail + [ReceivedAgain(Current(w).receipt.value)] else w.trail)
  {
    var w1 := Advanced(w, outcome, true);
    AloneStep(w, outcome, 2);
    AloneStep(w1, outcome, 1);
    AloneStep(Advanced(w1, outcome, true), outcome, 0);
  }

  lemma FailureSteps(w: World, outcome: Assessment)
    requires w.pc.FailSnapshot?
    requires Current(w).receipt.Some? ==> Current(w).receipt.value in w.receipts
    ensures var ended := Run(w, Alone(outcome, 3));
            ended == w.(pc := Removing, manifest := ended.manifest, receipts := Concluded(w, Closed(Failed)), failed := true)
  {
    var w1 := Advanced(w, outcome, true);
    assert w1 == w.(manifest := w1.manifest, pc := FailCopy) && Current(w1).receipt == Current(w).receipt;
    AloneStep(w, outcome, 2);
    FailureKept(w1, outcome);
  }

  lemma FailureKept(w: World, outcome: Assessment)
    requires w.pc.FailCopy?
    requires Current(w).receipt.Some? ==> Current(w).receipt.value in w.receipts
    ensures Run(w, Alone(outcome, 2)) == w.(pc := Removing, receipts := Concluded(w, Closed(Failed)), failed := true)
  {
    AloneStep(w, outcome, 1);
    AloneStep(Advanced(w, outcome, true), outcome, 0);
  }

  lemma ResumesDuplicate(w: World, begun: World, outcome: Assessment) returns (n: nat)
    requires w.rows != map[] && begun.pc.Finishing? && begun == Known(w).(pc := begun.pc)
    ensures Duplicated(w, Run(begun, Alone(outcome, n))) && Run(begun, Alone(outcome, n)).pc.Idle?
  {
    DuplicateSteps(begun, outcome);
    ConcludedAgain(w, Duplicate);
    n := EmptiesWhatIsLeft(Run(begun, Alone(outcome, 3)), outcome);
    AloneConcat(begun, outcome, 3, n);
    n := 3 + n;
  }

  lemma ResumesDecided(w: World, begun: World, context: Context, failure: seq<Event>, outcome: Assessment) returns (n: nat)
    requires !Uncertain(Current(w))
    requires begun == Begin(if context.assessment.verdict == Failed then Known(w).(trail := failure) else Known(w), context)
    ensures CarriedOut(w, Run(begun, Alone(outcome, n)), context, failure) && Run(begun, Alone(outcome, n)).pc.Idle?
  {
    if context.assessment.verdict == Failed {
      FailureSteps(begun, outcome);
      ConcludedAgain(w, Closed(Failed));
      n := EmptiesWhatIsLeft(Run(begun, Alone(outcome, 3)), outcome);
      AloneConcat(begun, outcome, 3, n);
      n := 3 + n;
    } else {
      n := CommitLeftAlone(begun, context, outcome);
      BeginIsKnown(w, begun, Run(begun, Alone(outcome, n)), context);
    }
  }

  lemma BeginIsKnown(w: World, begun: World, done: World, context: Context)
    requires begun == Known(w).(pc := begun.pc)
    requires StoredAs(begun, done, context) && EndedAs(begun, done, context, true, None)
    ensures StoredAs(Known(w), done, context) && EndedAs(Known(w), done, context, true, None)
  {
  }

  lemma ConcludedAgain(w: World, status: Status)
    ensures Concluded(Known(w), status) == Concluded(w, status)
  {
  }

  lemma ProcessesWhatIsStaged(w: World, begun: World, day: int, outcome: Assessment) returns (n: nat)
    requires begun == Known(w).(pc := Finishing(day)) && !Uncertain(Current(w)) && w.rows == map[] && Current(w).assessment.None?
    ensures CarriedOut(w, Run(begun, Alone(outcome, n)), Context(day, outcome), w.trail + [JobFailed])
    ensures Run(begun, Alone(outcome, n)).pc.Idle?
  {
    var processing := Advanced(begun, outcome, true);
    var decided := Advanced(processing, outcome, true);
    n := ResumesDecided(w, decided, Context(day, outcome), w.trail + [JobFailed], outcome);
    AloneStep(processing, outcome, n);
    AloneStep(begun, outcome, n + 1);
    n := n + 2;
  }

  lemma Resumes(w: World, day: int, outcome: Assessment) returns (n: nat)
    requires w.pc.Idle? && w.staged.Some? && !Uncertain(Current(w))
    requires day == if Current(w).day.Some? then Current(w).day.value else w.staged.value
    ensures ResumedAs(w, Run(Next(w, Resume), Alone(outcome, n)), outcome)
  {
    var begun := Next(w, Resume);
    match Current(w).assessment
    case Some(a) => n := ResumesDecided(w, begun, Context(day, a), w.trail, outcome);
    case None =>
      if w.rows != map[] {
        n := ResumesDuplicate(w, begun, outcome);
      } else {
        n := ProcessesWhatIsStaged(w, begun, day, outcome);
      }
  }

  /** A resume that is left alone, wherever the claim had got to. */
  lemma ResumeLeftAlone(w: World, outcome: Assessment) returns (n: nat)
    requires w.pc.Idle? && w.staged.Some? && !Uncertain(Current(w))
    ensures ResumedAs(w, Run(w, [Resume] + Alone(outcome, n)), outcome)
  {
    n := Resumes(w, if Current(w).day.Some? then Current(w).day.value else w.staged.value, outcome);
    CommitRuns.RunConcat(w, [Resume], Alone(outcome, n));
    assert [Resume][1..] == [];
  }

  /** A crash while staging is emptied leaves either of its files, and the other is gone. */
  lemma EitherFileMayBeLeft(w: World, outcome: Assessment)
    requires w.pc.Removing? && w.manifest.Some? && w.staged.Some?
    ensures Next(Next(w, Advance(outcome, true)), Crash) == w.(manifest := None, pc := Idle)
    ensures Next(Next(w, Advance(outcome, false)), Crash) == w.(staged := None, pc := Idle)
  {
  }

  /** A failure that was recorded before a crash is carried out after it without processing the
      document again, and is not reported twice. */
  lemma FailureIsNotRetried(w: World, context: Context, outcome: Assessment) returns (n: nat)
    requires w.pc == FailSnapshot(context) && context.assessment.verdict == Failed && w.staged.Some?
    requires Current(w).assessment.None? && !Uncertain(Current(w))
    ensures var after := Run(Next(Next(w, Advance(outcome, true)), Crash), [Resume] + Alone(outcome, n));
            && after.trail == w.trail && after.failed && after.receipts == Concluded(w, Closed(Failed))
            && after.rows == w.rows && after.pdfs == w.pdfs && after.manifest.None? && after.staged.None?
  {
    var dead := Next(Next(w, Advance(outcome, true)), Crash);
    assert dead == w.(manifest := dead.manifest, pc := Idle);
    assert Current(dead).assessment == Some(context.assessment) && Current(dead).receipt == Current(w).receipt;
    n := ResumeLeftAlone(dead, outcome);
  }

  /** A delivery that may have happened waits: resuming does nothing until an operator confirms,
      and then it is delivered once more and the job ends. */
  lemma UncertainWaits(w: World, outcome: Assessment) returns (n: nat)
    requires w.pc.Idle? && w.staged.Some? && Uncertain(Current(w))
    ensures Next(w, Resume) == w
    ensures var confirmed := Next(w, ConfirmRetry);
            && confirmed == w.(manifest := confirmed.manifest, confirmed := w.confirmed + 1)
            && Current(confirmed) == Current(w).(steps := Current(w).steps.(emitStarted := false))
            && ResumedAs(confirmed, Run(confirmed, [Resume] + Alone(outcome, n)), outcome)
  {
    n := ResumeLeftAlone(Next(w, ConfirmRetry), outcome);
  }

  // ----- over every run

  /** Whatever is stored about the job came from a processing in `decided`. */
  ghost predicate Decided(w: World, decided: set<Assessment>) {
    && (Current(w).assessment.Some? ==> Current(w).assessment.value in decided)
    && (w.pc.Committing? ==> w.pc.context.assessment in decided && !w.pc.context.assessment.verdict.Failed?)
    && (w.pc.FailSnapshot? ==> w.pc.context.assessment in decided)
    && Stored(w, decided)
  }

  /** Each copy, completion, row and content row, by the decision it goes back to. */
  ghost predicate Stored(w: World, decided: set<Assessment>) {
    && CopiesDecided(w.pdfs, decided)
    && CompletionsDecided(w.trail, decided)
    && RowsDecided(w.rows, decided)
    && ContentDecided(w.content, decided)
  }

  ghost predicate CopiesDecided(pdfs: set<Place>, decided: set<Assessment>) {
    forall p :: p in pdfs ==> exists a :: a in decided && Sends(a, p.quarantined)
  }

  ghost predicate CompletionsDecided(trail: seq<Event>, decided: set<Assessment>) {
    forall e :: e in trail && e.Completed? ==> e.verdict != Failed && exists a :: a in decided && a.verdict == e.verdict
  }

  ghost predicate RowsDecided(rows: map<int, Row>, decided: set<Assessment>) {
    forall day :: day in rows ==>
      && rows[day].verdict != Failed
      && rows[day].place == Place(rows[day].verdict == ToQuarantine, day)
      && (exists a :: a in decided && Sends(a, rows[day].place.quarantined))
      && (exists a :: a in decided && a.ruleset == rows[day].ruleset)
  }

  ghost predicate ContentDecided(content: map<int, string>, decided: set<Assessment>) {
    forall day :: day in content ==> exists a :: a in decided && a.text == content[day]
  }

  /** Quarantine is for what was decided to go there, the archive for the rest. */
  ghost predicate Sends(a: Assessment, quarantined: bool) {
    a.verdict == if quarantined then ToQuarantine else ToArchive
  }

  lemma DecidedFiling(w: World, decided: set<Assessment>, context: Context, stage: Stage)
    requires Decided(w, decided) && w.pc == Committing(context, stage)
    requires stage.Snapshot? || stage.CopyPdf? || stage.MarkPdf? || stage.AskAudit?
    ensures Decided(CommitStep(w, context, stage), decided)
  {
    assert Sends(context.assessment, context.assessment.verdict == ToQuarantine);
  }

  lemma DecidedAuditing(w: World, decided: set<Assessment>, context: Context, stage: Stage)
    requires Decided(w, decided) && w.pc == Committing(context, stage)
    requires stage.AppendAudit? || stage.MarkAudit?
    ensures Decided(CommitStep(w, context, stage), decided)
  {
  }

  lemma DecidedStoring(w: World, decided: set<Assessment>, context: Context, stage: Stage)
    requires Decided(w, decided) && w.pc == Committing(context, stage)
    requires stage.WriteRow? || stage.WriteContent? || stage.MarkStores?
    ensures Decided(CommitStep(w, context, stage), decided)
  {
    assert Sends(context.assessment, context.assessment.verdict == ToQuarantine);
  }

  lemma DecidedEnding(w: World, decided: set<Assessment>, context: Context, stage: Stage)
    requires Decided(w, decided) && w.pc == Committing(context, stage)
    requires Rank(stage) < 5
    ensures Decided(CommitStep(w, context, stage), decided)
  {
  }

  lemma DecidedCommit(w: World, decided: set<Assessment>, context: Context, stage: Stage)
    requires Decided(w, decided) && w.pc == Committing(context, stage)
    ensures Decided(CommitStep(w, context, stage), decided)
  {
    if Rank(stage) >= 10 {
      DecidedFiling(w, decided, context, stage);
    } else if Rank(stage) >= 8 {
      DecidedAuditing(w, decided, context, stage);
    } else if Rank(stage) >= 5 {
      DecidedStoring(w, decided, context, stage);
    } else {
      DecidedEnding(w, decided, context, stage);
    }
  }

  lemma DecidedProcessing(w: World, decided: set<Assessment>, outcome: Assessment, manifestFirst: bool)
    requires Decided(w, decided) && outcome in decided && (w.pc.Finishing? || w.pc.Processing? || w.pc.Idle?)
    ensures Decided(Advanced(w, outcome, manifestFirst), decided)
  {
  }

  lemma DecidedClaiming(w: World, decided: set<Assessment>, outcome: Assessment, manifestFirst: bool)
    requires Decided(w, decided) && (w.pc.ClaimPdf? || w.pc.ClaimReceipt? || w.pc.DuplicateClose? || w.pc.DuplicateAudit?)
    ensures Decided(Advanced(w, outcome, manifestFirst), decided)
  {
  }

  lemma DecidedFailing(w: World, decided: set<Assessment>, outcome: Assessment, manifestFirst: bool)
    requires Decided(w, decided) && (w.pc.FailSnapshot? || w.pc.FailCopy? || w.pc.FailClose?)
    ensures Decided(Advanced(w, outcome, manifestFirst), decided)
  {
  }

  lemma DecidedRemoving(w: World, decided: set<Assessment>, outcome: Assessment, manifestFirst: bool)
    requires Decided(w, decided) && w.pc.Removing?
    ensures Decided(Advanced(w, outcome, manifestFirst), decided)
  {
    RemovedStays(w, manifestFirst);
  }

  lemma RemovedStays(w: World, manifestFirst: bool)
    requires w.pc.Removing?
    ensures var done := Removed(w, manifestFirst);
            && done.pdfs == w.pdfs && done.trail == w.trail && done.rows == w.rows && done.content == w.content
            && (done.manifest.None? || done.manifest == w.manifest) && (done.pc.Removing? || done.pc.Idle?)
  {
  }

  lemma DecidedElsewhere(w: World, decided: set<Assessment>, outcome: Assessment, manifestFirst: bool)
    requires Decided(w, decided) && outcome in decided && !w.pc.Committing?
    ensures Decided(Advanced(w, outcome, manifestFirst), decided)
  {
    if w.pc.Finishing? || w.pc.Processing? || w.pc.Idle? {
      DecidedProcessing(w, decided, outcome, manifestFirst);
    } else if w.pc.FailSnapshot? || w.pc.FailCopy? || w.pc.FailClose? {
      DecidedFailing(w, decided, outcome, manifestFirst);
    } else if w.pc.Removing? {
      DecidedRemoving(w, decided, outcome, manifestFirst);
    } else {
      DecidedClaiming(w, decided, outcome, manifestFirst);
    }
  }

  lemma DecidedResume(w: World, decided: set<Assessment>)
    requires Decided(w, decided)
    ensures Decided(Resumed(w), decided)
  {
  }

  lemma DecidedStep(w: World, decided: set<Assessment>, a: Action)
    requires Decided(w, decided) && (a.Advance? ==> a.outcome in decided)
    ensures Decided(Next(w, a), decided)
  {
    match a
    case Advance(outcome, manifestFirst) =>
      if w.pc.Committing? {
        DecidedCommit(w, decided, w.pc.context, w.pc.stage);
      } else {
        DecidedElsewhere(w, decided, outcome, manifestFirst);
      }
    case Resume => DecidedResume(w, decided);
    case _ =>
  }

  lemma {:induction false} DecidedOverRuns(w: World, decided: set<Assessment>, actions: seq<Action>)
    requires Decided(w, decided) && forall i :: 0 <= i < |actions| && actions[i].Advance? ==> actions[i].outcome in decided
    ensures Decided(Run(w, actions), decided)
    decreases |actions|
  {
    if actions != [] {
      DecidedStep(w, decided, actions[0]);
      DecidedOverRuns(Next(w, actions[0]), decided, actions[1..]);
    }
  }

  /** Over every schedule of claims, crashes, resumes and retries: a row lies under its own day,
      in quarantine if and only if its verdict is quarantine and never for a failure; a copy in
      quarantine goes back to a decision to quarantine and one in the archive to a decision to
      archive; and so do completions, rulesets and content. */
  lemma FiledAsDecided(today: int, decided: set<Assessment>, actions: seq<Action>)
    requires forall i :: 0 <= i < |actions| && actions[i].Advance? ==> actions[i].outcome in decided
    ensures Stored(Run(Start(today), actions), decided)
  {
    DecidedOverRuns(Start(today), decided, actions);
  }

  // ----- arrivals that are turned away

  /** The events from `since` on: one for each arrival, by its receipt. */
  ghost predicate OnePerArrival(trail: seq<Event>, since: nat, first: nat) {
    forall j :: since <= j < |trail| ==>
      trail[j] == ReceivedAgain(first + (j - since)) || trail[j] == ReceivedWhileProcessing(first + (j - since))
  }

  /** The receipts from `first` up to `next` are closed as duplicates; the others stay. */
  ghost predicate DuplicatesAdded(before: map<nat, Status>, after: map<nat, Status>, first: nat, next: nat) {
    && (forall r :: r in after <==> r in before || first <= r < next)
    && (forall r :: r in after ==> after[r] == if first <= r < next then Duplicate else before[r])
  }

  lemma ArrivalTurnedAway(w: World, a: Action)
    requires a.ArriveAgain? || a.ArriveDuring?
    ensures var after, n := Next(w, a), w.nextReceipt;
            if (a.ArriveAgain? && w.rows == map[]) || (a.ArriveDuring? && w.pc.Idle?) then after == w
            else
              && after == w.(trail := after.trail, receipts := after.receipts, nextReceipt := n + 1)
              && DuplicatesAdded(w.receipts, after.receipts, n, n + 1)
              && after.trail == w.trail + [if a.ArriveAgain? then ReceivedAgain(n) else ReceivedWhileProcessing(n)]
  {
  }

  /** Further arrivals of the same bytes while a job is indexed or being worked on get a receipt
      closed as a duplicate and one event each, and touch nothing else; without either they are
      not turned away here. */
  lemma {:induction false} ArrivalsTurnedAway(w: World, arrivals: seq<Action>)
    requires forall i :: 0 <= i < |arrivals| ==> arrivals[i].ArriveAgain? || arrivals[i].ArriveDuring?
    ensures var after := Run(w, arrivals);
            && w.nextReceipt <= after.nextReceipt
            && after == w.(trail := after.trail, receipts := after.receipts, nextReceipt := after.nextReceipt)
            && DuplicatesAdded(w.receipts, after.receipts, w.nextReceipt, after.nextReceipt)
            && w.trail <= after.trail && |after.trail| == |w.trail| + (after.nextReceipt - w.nextReceipt)
            && OnePerArrival(after.trail, |w.trail|, w.nextReceipt)
            && (w.rows != map[] && !w.pc.Idle? ==> after.nextReceipt == w.nextReceipt + |arrivals|)
            && (w.rows == map[] && w.pc.Idle? ==> after == w)
    decreases |arrivals|
  {
    if arrivals != [] {
      ArrivalTurnedAway(w, arrivals[0]);
      ArrivalsTurnedAway(Next(w, arrivals[0]), arrivals[1..]);
    }
  }
}
