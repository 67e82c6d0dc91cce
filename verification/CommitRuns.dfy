/**
 What holds over every schedule of arrivals, resumes, operator retries and crashes of one job:
 one completion event per receipt, one delivery per job and confirmed retry, and crashes that
 leave no trace, with the exact condition for it.
 */
module CommitRuns {
  import opened Wrappers
  import opened CommitAudit
  import opened CommitProtocol

  // ----- one completion event per receipt

  lemma {:induction false} AuditOverRuns(w: World, actions: seq<Action>)
    requires AuditKept(w)
    ensures AuditKept(Run(w, actions))
    decreases |actions|
  {
    if actions != [] {
      AuditStep(w, actions[0]);
      AuditOverRuns(Next(w, actions[0]), actions[1..]);
    }
  }

  /** The trail never holds two completions of one receipt, and holds exactly one by the time
      its commit closes the receipt. An index row never exists without a completion. */
  lemma OneCompletionPerReceipt(today: int, actions: seq<Action>, receipt: nat)
    ensures var w := Run(Start(today), actions);
            && Count(w.trail, Some(receipt)) <= 1
            && (w.pc.Committing? && (w.pc.stage.CloseReceipt? || w.pc.stage.DropFailed?) && Current(w).receipt == Some(receipt)
                ==> Count(w.trail, Some(receipt)) == 1)
            && (w.rows != map[] ==> SomeCompletion(w.trail))
  {
    AuditOverRuns(Start(today), actions);
  }

  /** Looking from the claim's own day on misses no completion of its receipt. */
  lemma SearchMissesNothing(today: int, actions: seq<Action>)
    ensures var w := Run(Start(today), actions);
            Current(w).receipt.Some? ==> CountSince(w.trail, Current(w).receipt, Current(w).day) == Count(w.trail, Current(w).receipt)
  {
    AuditOverRuns(Start(today), actions);
  }

  // ----- one delivery per job and confirmed retry

  predicate PastRow(pc: Pc) {
    pc.Committing? &&
    (pc.stage.WriteContent? || pc.stage.MarkStores? || pc.stage.StartEmit? || pc.stage.Emit? ||
     pc.stage.MarkEmitted? || pc.stage.CloseReceipt? || pc.stage.DropFailed?)
  }

  /** A delivery that may still happen without an operator: from the manifest as it stands. */
  function Pending(m: Manifest): nat {
    if m.assessment.Some? && !m.steps.emitStarted && !m.steps.emitted then 1 else 0
  }

  function Delivering(pc: Pc): nat {
    if pc.Committing? && pc.stage.Emit? then 1 else 0
  }

  predicate PcEmit(hasRow: bool, m: Manifest, pc: Pc) {
    && (PastRow(pc) ==> hasRow)
    && (pc.Processing? ==> !hasRow)
    && (pc.Committing? && (pc.stage.Emit? || pc.stage.MarkEmitted?) ==> m.steps.emitStarted)
    && (pc.FailSnapshot? ==> m.assessment.Some? || !hasRow)
    && (pc.Committing? ==> m.assessment.Some? || (pc.stage.Snapshot? && !hasRow))
  }

  predicate EmitCounts(hasRow: bool, m: Manifest, pc: Pc, emits: nat, confirmed: nat) {
    && (m.steps.stored ==> hasRow)
    && (m.steps.emitted ==> m.steps.emitStarted)
    && (m.steps.emitStarted ==> hasRow)
    && (!hasRow ==> emits == 0 && confirmed == 0)
    && emits + Pending(m) + Delivering(pc) <= 1 + confirmed
  }

  function HasRow(w: World): bool {
    w.rows != map[]
  }

  predicate EmitKept(w: World) {
    PcEmit(HasRow(w), Current(w), w.pc) && EmitCounts(HasRow(w), Current(w), w.pc, w.emits, w.confirmed)
  }

  lemma EmitFiling(w: World, context: Context, stage: Stage)
    requires EmitKept(w) && w.pc == Committing(context, stage)
    requires stage.Snapshot? || stage.CopyPdf? || stage.MarkPdf? || stage.AskAudit?
    ensures EmitKept(CommitStep(w, context, stage))
  {
  }

  lemma EmitAuditing(w: World, context: Context, stage: Stage)
    requires EmitKept(w) && w.pc == Committing(context, stage)
    requires stage.AppendAudit? || stage.MarkAudit? || stage.WriteRow?
    ensures EmitKept(CommitStep(w, context, stage))
  {
    if stage.WriteRow? && !Current(w).steps.stored {
      assert context.day in CommitStep(w, context, stage).rows;
    }
  }

  lemma EmitStoring(w: World, context: Context, stage: Stage)
    requires EmitKept(w) && w.pc == Committing(context, stage)
    requires stage.WriteContent? || stage.MarkStores? || stage.CloseReceipt? || stage.DropFailed?
    ensures EmitKept(CommitStep(w, context, stage))
  {
  }

  lemma EmitEmitting(w: World, context: Context, stage: Stage)
    requires EmitKept(w) && w.pc == Committing(context, stage)
    requires stage.StartEmit? || stage.Emit? || stage.MarkEmitted?
    ensures EmitKept(CommitStep(w, context, stage))
  {
  }

  lemma EmitClaiming(w: World, outcome: Assessment, manifestFirst: bool)
    requires EmitKept(w) && (w.pc.Idle? || w.pc.ClaimPdf? || w.pc.ClaimReceipt? || w.pc.Finishing?)
    ensures EmitKept(Advanced(w, outcome, manifestFirst))
  {
  }

  lemma EmitDuplicate(w: World, outcome: Assessment, manifestFirst: bool)
    requires EmitKept(w) && (w.pc.DuplicateClose? || w.pc.DuplicateAudit?)
    ensures EmitKept(Advanced(w, outcome, manifestFirst))
  {
  }

  lemma EmitProcessing(w: World, outcome: Assessment, manifestFirst: bool)
    requires EmitKept(w) && w.pc.Processing?
    ensures EmitKept(Advanced(w, outcome, manifestFirst))
  {
  }

  lemma EmitFailing(w: World, outcome: Assessment, manifestFirst: bool)
    requires EmitKept(w) && (w.pc.FailSnapshot? || w.pc.FailCopy? || w.pc.FailClose?)
    ensures EmitKept(Advanced(w, outcome, manifestFirst))
  {
  }

  lemma EmitRemoving(w: World, outcome: Assessment, manifestFirst: bool)
    requires EmitKept(w) && w.pc.Removing?
    ensures EmitKept(Advanced(w, outcome, manifestFirst))
  {
  }

  lemma EmitResume(w: World)
    requires EmitKept(w) && w.pc.Idle?
    ensures EmitKept(Resumed(w))
  {
    ResumeOnlyBegins(w);
    assert Current(Resumed(w)) == Current(w) && HasRow(Resumed(w)) == HasRow(w);
  }

  lemma EmitStep(w: World, a: Action)
    requires EmitKept(w)
    ensures EmitKept(Next(w, a))
  {
    if !a.Advance? {
      if a.Resume? && w.pc.Idle? { EmitResume(w); }
    } else if w.pc.Committing? {
      var context, stage := w.pc.context, w.pc.stage;
      if stage.Snapshot? || stage.CopyPdf? || stage.MarkPdf? || stage.AskAudit? {
        EmitFiling(w, context, stage);
      } else if stage.AppendAudit? || stage.MarkAudit? || stage.WriteRow? {
        EmitAuditing(w, context, stage);
      } else if stage.StartEmit? || stage.Emit? || stage.MarkEmitted? {
        EmitEmitting(w, context, stage);
      } else {
        EmitStoring(w, context, stage);
      }
    } else if w.pc.Removing? {
      EmitRemoving(w, a.outcome, a.manifestFirst);
    } else if w.pc.FailSnapshot? || w.pc.FailCopy? || w.pc.FailClose? {
      EmitFailing(w, a.outcome, a.manifestFirst);
    } else if w.pc.DuplicateClose? || w.pc.DuplicateAudit? {
      EmitDuplicate(w, a.outcome, a.manifestFirst);
    } else if w.pc.Processing? {
      EmitProcessing(w, a.outcome, a.manifestFirst);
    } else {
      EmitClaiming(w, a.outcome, a.manifestFirst);
    }
  }

  lemma {:induction false} EmitOverRuns(w: World, actions: seq<Action>)
    requires EmitKept(w)
    ensures EmitKept(Run(w, actions))
    decreases |actions|
  {
    if actions != [] {
      EmitStep(w, actions[0]);
      EmitOverRuns(Next(w, actions[0]), actions[1..]);
    }
  }

  /** Over every schedule of crashes, part-removed staging directories and fresh arrivals, the
      emit plugins run at most once plus once per confirmed retry, and never before the index
      row that stops any later arrival from being delivered again. */
  lemma DeliveredAtMostOnce(today: int, actions: seq<Action>)
    ensures var w := Run(Start(today), actions);
            w.emits <= 1 + w.confirmed && (w.emits > 0 ==> w.rows != map[])
  {
    EmitOverRuns(Start(today), actions);
  }

  // ----- a crash before delivery leaves no trace

  lemma ResumeOnlyBegins(w: World)
    ensures var w' := Resumed(w);
            w' == w.(receipts := w'.receipts, pc := w'.pc)
    ensures var m, pc := Current(w), Resumed(w).pc;
            || pc == w.pc
            || (m.assessment.None? && w.staged.Some? && pc == Finishing(DayOf(w).value))
            || (m.assessment.Some? && w.staged.Some? && m.assessment.value.verdict.Failed? &&
                pc == FailSnapshot(Context(DayOf(w).value, m.assessment.value)))
            || (m.assessment.Some? && w.staged.Some? && pc == Committing(Context(DayOf(w).value, m.assessment.value), Snapshot))
  {
  }

  predicate BeforeEmit(stage: Stage) {
    !stage.Emit? && !stage.MarkEmitted? && !stage.CloseReceipt? && !stage.DropFailed?
  }

  predicate AfterPdf(stage: Stage) {
    !stage.Snapshot? && !stage.CopyPdf? && !stage.MarkPdf?
  }

  predicate Working(pc: Pc) {
    pc.Finishing? || pc.Processing? || pc.Committing? || pc.FailSnapshot?
  }

  /** What is already on disk at each stage, so that doing it again changes nothing. */
  predicate PcShape(w: World) {
    && (Working(w.pc) ==> w.staged.Some? && (w.pc.Processing? ==> !Uncertain(Current(w))))
    && (w.pc.Committing? ==> StageShape(w, w.pc.context, w.pc.stage))
  }

  predicate StageShape(w: World, context: Context, stage: Stage) {
    && (BeforeEmit(stage) ==> !Uncertain(Current(w)))
    && (stage.MarkPdf? ==> !Current(w).steps.pdf && PlaceOf(context) in w.pdfs)
    && (AfterPdf(stage) ==> Current(w).steps.pdf)
    && (stage.AppendAudit? ==> !Current(w).steps.audited)
    && (stage.WriteContent? || stage.MarkStores? ==>
          !Current(w).steps.stored && context.day in w.rows && w.rows[context.day] == RowOf(w, context))
    && (stage.MarkStores? ==> context.day in w.content && w.content[context.day] == context.assessment.text)
    && (stage.StartEmit? ==> Current(w).steps.stored)
  }

  lemma ShapeFiling(w: World, context: Context, stage: Stage)
    requires PcShape(w) && w.pc == Committing(context, stage)
    requires stage.Snapshot? || stage.CopyPdf? || stage.MarkPdf? || stage.AskAudit?
    ensures PcShape(CommitStep(w, context, stage))
  {
  }

  lemma ShapeAuditing(w: World, context: Context, stage: Stage)
    requires PcShape(w) && w.pc == Committing(context, stage)
    requires stage.AppendAudit? || stage.MarkAudit? || stage.WriteRow?
    ensures PcShape(CommitStep(w, context, stage))
  {
  }

  lemma ShapeStoring(w: World, context: Context, stage: Stage)
    requires PcShape(w) && w.pc == Committing(context, stage)
    requires stage.WriteContent? || stage.MarkStores?
    ensures PcShape(CommitStep(w, context, stage))
  {
  }

  lemma ShapeEnding(w: World, context: Context, stage: Stage)
    requires PcShape(w) && w.pc == Committing(context, stage)
    requires stage.StartEmit? || stage.Emit? || stage.MarkEmitted? || stage.CloseReceipt? || stage.DropFailed?
    ensures PcShape(CommitStep(w, context, stage))
  {
  }

  lemma RestIsNotWorking(w: World, outcome: Assessment, manifestFirst: bool)
    requires !Working(w.pc)
    ensures !Working(Advanced(w, outcome, manifestFirst).pc)
  {
    if w.pc.FailCopy? || w.pc.FailClose? || w.pc.Removing? {
      FailureRests(w, outcome, manifestFirst);
    } else {
      ClaimRests(w, outcome, manifestFirst);
    }
  }

  lemma FailureRests(w: World, outcome: Assessment, manifestFirst: bool)
    requires w.pc.FailCopy? || w.pc.FailClose? || w.pc.Removing?
    ensures !Working(Advanced(w, outcome, manifestFirst).pc)
  {
  }

  lemma ClaimRests(w: World, outcome: Assessment, manifestFirst: bool)
    requires w.pc.Idle? || w.pc.ClaimPdf? || w.pc.ClaimReceipt? || w.pc.DuplicateClose? || w.pc.DuplicateAudit?
    ensures !Working(Advanced(w, outcome, manifestFirst).pc)
  {
  }

  lemma ShapeAdvance(w: World, outcome: Assessment, manifestFirst: bool)
    requires PcShape(w) && EmitKept(w) && !w.pc.Committing?
    ensures PcShape(Advanced(w, outcome, manifestFirst))
  {
    if w.pc.Finishing? || w.pc.Processing? {
    } else if !Working(w.pc) {
      RestIsNotWorking(w, outcome, manifestFirst);
    }
  }

  lemma ShapeStep(w: World, a: Action)
    requires PcShape(w) && EmitKept(w)
    ensures PcShape(Next(w, a))
  {
    if a.Advance? {
      if !w.pc.Committing? {
        ShapeAdvance(w, a.outcome, a.manifestFirst);
      } else {
        var context, stage := w.pc.context, w.pc.stage;
        if stage.Snapshot? || stage.CopyPdf? || stage.MarkPdf? || stage.AskAudit? {
          ShapeFiling(w, context, stage);
        } else if stage.AppendAudit? || stage.MarkAudit? || stage.WriteRow? {
          ShapeAuditing(w, context, stage);
        } else if stage.WriteContent? || stage.MarkStores? {
          ShapeStoring(w, context, stage);
        } else {
          ShapeEnding(w, context, stage);
        }
      }
    } else if a.Resume? && w.pc.Idle? {
      ResumeOnlyBegins(w);
      assert !Working(Resumed(w).pc) || !Uncertain(Current(w));
    }
  }

  /** How many steps a resumed commit takes to be back at a stage. */
  function Distance(stage: Stage): nat {
    match stage
    case Snapshot => 0
    case CopyPdf => 1
    case MarkPdf => 2
    case AskAudit => 2
    case AppendAudit => 3
    case MarkAudit => 3
    case WriteRow => 4
    case WriteContent => 5
    case StartEmit => 5
    case MarkStores => 6
    case _ => 0
  }

  /** The stages a resumed commit passes on its way to `target`. */
  predicate OnTheWay(stage: Stage, target: Stage) {
    stage == target ||
    (Distance(stage) < Distance(target) &&
     (stage.Snapshot? || stage.CopyPdf? || stage.AskAudit? || stage.MarkAudit? || stage.WriteRow? ||
      (stage.WriteContent? && target.MarkStores?)))
  }

  function Passed(stage: Stage, target: Stage): Stage
    requires OnTheWay(stage, target) && stage != target
  {
    match stage
    case Snapshot => CopyPdf
    case CopyPdf => if target.MarkPdf? then MarkPdf else AskAudit
    case AskAudit => if target.AppendAudit? then AppendAudit else MarkAudit
    case MarkAudit => WriteRow
    case WriteRow => if target.StartEmit? then StartEmit else WriteContent
    case _ => MarkStores
  }

  /** What a resume needs to come back to where the commit was: the manifest holds the decision
      and the day this commit works with, the receipt's file exists, and the completion just
      appended can be recognized. */
  predicate Retraceable(w: World)
    requires w.pc.Committing?
  {
    var m, context := Current(w), w.pc.context;
    && m.assessment == Some(context.assessment) && DayOf(w) == Some(context.day)
    && (m.receipt.Some? ==> m.receipt.value in w.receipts)
    && (w.pc.stage.MarkAudit? ==> m.receipt.Some? || m.steps.audited)
  }

  predicate Ready(w: World) {
    && w.pc.Committing? && BeforeEmit(w.pc.stage) && Retraceable(w) && CommitsFiled(w) && PcShape(w)
  }

  /** Repeating a stage that was already reached changes nothing on disk. */
  lemma RepeatedStep(w: World, stage: Stage)
    requires Ready(w) && AuditKept(w) && OnTheWay(stage, w.pc.stage) && stage != w.pc.stage
    ensures CommitStep(To(w, w.pc.context, stage), w.pc.context, stage) == To(w, w.pc.context, Passed(stage, w.pc.stage))
  {
    var context, target := w.pc.context, w.pc.stage;
    var r := To(w, context, stage);
    match stage {
      case Snapshot =>
      case CopyPdf => if target.MarkPdf? { assert w.pdfs + {PlaceOf(context)} == w.pdfs; }
      case AskAudit => RepeatedAsk(w);
      case MarkAudit => assert Current(w).steps.(audited := true) == Current(w).steps;
      case WriteRow => if !target.StartEmit? { assert w.rows[context.day := RowOf(w, context)] == w.rows; }
      case WriteContent => assert w.content[context.day := context.assessment.text] == w.content;
      case _ =>
    }
  }

  lemma RepeatedAsk(w: World)
    requires Ready(w) && AuditKept(w) && OnTheWay(AskAudit, w.pc.stage) && !w.pc.stage.AskAudit?
    ensures CommitStep(To(w, w.pc.context, AskAudit), w.pc.context, AskAudit) == To(w, w.pc.context, Passed(AskAudit, w.pc.stage))
  {
    var m := Current(w);
    NoneSince(w.trail, m.receipt, m.day);
    if w.pc.stage.AppendAudit? {
      assert m.steps.(auditStarted := true) == m.steps;
    }
  }

  lemma {:induction false} Replayed(w: World, stage: Stage, advances: seq<Action>)
    requires Ready(w) && AuditKept(w) && OnTheWay(stage, w.pc.stage)
    requires |advances| == Distance(w.pc.stage) - Distance(stage)
    requires forall i :: 0 <= i < |advances| ==> advances[i].Advance?
    ensures Run(To(w, w.pc.context, stage), advances) == w
    decreases |advances|
  {
    if stage != w.pc.stage {
      RepeatedStep(w, stage);
      var next := Passed(stage, w.pc.stage);
      assert Next(To(w, w.pc.context, stage), advances[0]) == To(w, w.pc.context, next);
      Replayed(w, next, advances[1..]);
    }
  }

  lemma {:induction false} RunConcat(w: World, a: seq<Action>, b: seq<Action>)
    ensures Run(w, a + b) == Run(Run(w, a), b)
    decreases |a|
  {
    if a == [] {
      assert a + b == b;
    } else {
      assert (a + b)[0] == a[0] && (a + b)[1..] == a[1..] + b;
      RunConcat(Next(w, a[0]), a[1..], b);
    }
  }

  lemma RunTwo(w: World, a: Action, b: Action)
    ensures Run(w, [a, b]) == Next(Next(w, a), b)
  {
    assert [a, b][1..] == [b] && [b][1..] == [];
    assert Run(Next(w, a), [b]) == Next(Next(w, a), b);
  }

  lemma RunThree(w: World, a: Action, b: Action, c: Action)
    ensures Run(w, [a, b, c]) == Next(Next(Next(w, a), b), c)
  {
    assert [a, b, c][1..] == [b, c];
    RunTwo(Next(w, a), b, c);
  }

  lemma ResumeRestarts(w: World)
    requires Ready(w)
    ensures Run(w, [Crash, Resume]) == To(w, w.pc.context, Snapshot)
  {
    var dead := Next(w, Crash);
    assert [Crash, Resume][1..] == [Resume] && [Resume][1..] == [];
    assert Run(w, [Crash, Resume]) == Next(dead, Resume) == Resumed(dead);
    assert Resumed(dead) == Begin(dead, Context(DayOf(w).value, w.pc.context.assessment));
  }

  lemma {:induction false} InvariantsOverRuns(w: World, actions: seq<Action>)
    requires EmitKept(w) && AuditKept(w) && PcShape(w) && CommitsFiled(w)
    ensures var w' := Run(w, actions); EmitKept(w') && AuditKept(w') && PcShape(w') && CommitsFiled(w')
    decreases |actions|
  {
    if actions != [] {
      EmitStep(w, actions[0]);
      AuditStep(w, actions[0]);
      ShapeStep(w, actions[0]);
      FiledStep(w, actions[0]);
      InvariantsOverRuns(Next(w, actions[0]), actions[1..]);
    }
  }

  /** Only a document that could be assessed is committed. */
  predicate CommitsFiled(w: World) {
    w.pc.Committing? ==> !w.pc.context.assessment.verdict.Failed?
  }

  lemma FiledStep(w: World, a: Action)
    requires CommitsFiled(w)
    ensures CommitsFiled(Next(w, a))
  {
    if a.Advance? {
      FiledAdvance(w, a.outcome, a.manifestFirst);
    } else if a.Resume? && w.pc.Idle? {
      var w' := Resumed(w);
    }
  }

  lemma FiledAdvance(w: World, outcome: Assessment, manifestFirst: bool)
    requires CommitsFiled(w)
    ensures CommitsFiled(Advanced(w, outcome, manifestFirst))
  {
  }

  // ----- when nothing is retraced

  /** What further steps of a resumed commit never leave: its context and the receipts on disk. */
  predicate Bound(w: World, context: Context, receipt: Option<nat>) {
    && !w.pc.Finishing? && !w.pc.Processing?
    && (w.pc.Committing? ==> w.pc.context == context)
    && (receipt.Some? ==> receipt.value in w.receipts)
  }

  lemma BoundCommit(w: World, context: Context, receipt: Option<nat>)
    requires Bound(w, context, receipt) && w.pc.Committing?
    ensures Bound(CommitStep(w, w.pc.context, w.pc.stage), context, receipt)
  {
  }

  lemma BoundFailing(w: World, context: Context, receipt: Option<nat>, outcome: Assessment, manifestFirst: bool)
    requires Bound(w, context, receipt) && (w.pc.FailSnapshot? || w.pc.FailCopy? || w.pc.FailClose? || w.pc.Removing?)
    ensures Bound(Advanced(w, outcome, manifestFirst), context, receipt)
  {
  }

  lemma BoundClaiming(w: World, context: Context, receipt: Option<nat>, outcome: Assessment, manifestFirst: bool)
    requires Bound(w, context, receipt)
    requires w.pc.Idle? || w.pc.ClaimPdf? || w.pc.ClaimReceipt? || w.pc.DuplicateClose? || w.pc.DuplicateAudit?
    ensures Bound(Advanced(w, outcome, manifestFirst), context, receipt)
  {
  }

  lemma {:induction false} BoundOverRuns(w: World, context: Context, receipt: Option<nat>, advances: seq<Action>)
    requires Bound(w, context, receipt)
    requires forall i :: 0 <= i < |advances| ==> advances[i].Advance?
    ensures Bound(Run(w, advances), context, receipt)
    decreases |advances|
  {
    if advances != [] {
      if w.pc.Committing? {
        BoundCommit(w, context, receipt);
      } else if w.pc.FailSnapshot? || w.pc.FailCopy? || w.pc.FailClose? || w.pc.Removing? {
        BoundFailing(w, context, receipt, advances[0].outcome, advances[0].manifestFirst);
      } else {
        BoundClaiming(w, context, receipt, advances[0].outcome, advances[0].manifestFirst);
      }
      BoundOverRuns(Next(w, advances[0]), context, receipt, advances[1..]);
    }
  }

  /** An event without a receipt is not found again, so the resumed commit appends a second one. */
  lemma AsksAgain(w: World, advances: seq<Action>)
    requires PcShape(w) && w.pc.Committing? && w.pc.stage.MarkAudit?
    requires Current(w).assessment.Some? && Current(w).receipt.None? && !Current(w).steps.audited
    requires |advances| == 3 && forall i :: 0 <= i < |advances| ==> advances[i].Advance?
    ensures Run(To(w, w.pc.context, Snapshot), advances).pc == Committing(w.pc.context, AppendAudit)
  {
    var context := w.pc.context;
    var w0 := To(w, context, Snapshot);
    var a, b, c := advances[0], advances[1], advances[2];
    assert advances == [a, b, c];
    RunThree(w0, a, b, c);
    assert Next(w0, a) == To(w, context, CopyPdf);
    assert Next(To(w, context, CopyPdf), b) == To(w, context, AskAudit);
  }

  lemma NotRetraced(w: World, advances: seq<Action>)
    requires EmitKept(w) && PcShape(w) && CommitsFiled(w)
    requires w.pc.Committing? && BeforeEmit(w.pc.stage) && !Retraceable(w)
    requires |advances| == Distance(w.pc.stage) && forall i :: 0 <= i < |advances| ==> advances[i].Advance?
    ensures Run(Run(w, [Crash, Resume]), advances) != w
  {
    var dead, m := Next(w, Crash), Current(w);
    RunTwo(w, Crash, Resume);
    ResumeOnlyBegins(dead);
    var r := Resumed(dead);
    if m.assessment.Some? {
      var context := Context(DayOf(w).value, m.assessment.value);
      assert Bound(r, context, m.receipt);
      BoundOverRuns(r, context, m.receipt, advances);
      if context == w.pc.context && (m.receipt.Some? ==> m.receipt.value in w.receipts) {
        assert r == To(w, context, Snapshot);
        AsksAgain(w, advances);
      }
    }
  }

  // ----- time and other arrivals pass before the resume

  predicate Meanwhile(a: Action) {
    a.NextDay? || a.ArriveAgain?
  }

  lemma MeanwhileStep(w: World, a: Action)
    requires Meanwhile(a) && AuditKept(w)
    ensures var w' := Next(w, a);
            && w' == w.(today := w'.today, receipts := w'.receipts, trail := w'.trail, nextReceipt := w'.nextReceipt)
            && Next(w.(pc := Idle), a) == w'.(pc := Idle)
            && (w.pc.Committing? ==> (Retraceable(w') <==> Retraceable(w)))
  {
  }

  lemma {:induction false} MeanwhileRuns(w: World, between: seq<Action>)
    requires AuditKept(w) && w.pc.Committing? && forall i :: 0 <= i < |between| ==> Meanwhile(between[i])
    ensures var w' := Run(w, between);
            && Run(w.(pc := Idle), between) == w'.(pc := Idle) && w'.pc == w.pc
            && (Retraceable(w') <==> Retraceable(w))
    decreases |between|
  {
    if between != [] {
      MeanwhileStep(w, between[0]);
      AuditStep(w, between[0]);
      MeanwhileRuns(Next(w, between[0]), between[1..]);
    }
  }

  /** Crash a commit at any stage before its delivery, let days pass and further copies arrive,
      and resume it: after a fixed number of steps it is exactly where it would be had it slept
      instead, the same files, trail, rows, receipts and next step, whatever the ruleset decides
      by then. So everything that follows is the same too. This is so exactly when the manifest
      on disk is retraceable. */
  lemma CrashIsInvisible(today: int, actions: seq<Action>, between: seq<Action>, advances: seq<Action>, rest: seq<Action>)
    requires var w := Run(Start(today), actions);
             w.pc.Committing? && BeforeEmit(w.pc.stage) && |advances| == Distance(w.pc.stage)
    requires forall i :: 0 <= i < |between| ==> Meanwhile(between[i])
    requires forall i :: 0 <= i < |advances| ==> advances[i].Advance?
    ensures var w := Run(Start(today), actions);
            && (Retraceable(w) <==> Run(w, [Crash] + between + [Resume] + advances) == Run(w, between))
            && (Retraceable(w) ==> Run(w, [Crash] + between + [Resume] + advances + rest) == Run(w, between + rest))
  {
    var w := Run(Start(today), actions);
    InvariantsOverRuns(Start(today), actions);
    InvariantsOverRuns(w, between);
    MeanwhileRuns(w, between);
    var w' := Run(w, between);
    CrashThenSleep(w, between);
    if Retraceable(w) {
      ResumeRestarts(w');
      Replayed(w', Snapshot, advances);
    } else {
      NotRetraced(w', advances);
    }
    RunConcat(w, [Crash] + between + [Resume], advances);
    RunConcat(w, [Crash] + between + [Resume] + advances, rest);
    RunConcat(w, between, rest);
  }

  lemma CrashThenSleep(w: World, between: seq<Action>)
    requires AuditKept(w) && w.pc.Committing? && forall i :: 0 <= i < |between| ==> Meanwhile(between[i])
    ensures Run(w, [Crash] + between + [Resume]) == Run(Run(w, between), [Crash, Resume])
  {
    MeanwhileRuns(w, between);
    RunConcat(w, [Crash] + between, [Resume]);
    RunConcat(w, [Crash], between);
    RunConcat(Run(w, between), [Crash], [Resume]);
    assert [Crash] + [Resume] == [Crash, Resume];
    assert Run(w, [Crash]) == w.(pc := Idle) by { assert [Crash][1..] == []; }
    assert Run(Run(w, between), [Crash]) == Run(w, between).(pc := Idle) by { assert [Crash][1..] == []; }
  }

  // ----- what sleeping changes

  /** Past the question whether the completion is there already; nothing later reads the trail. */
  predicate Answered(pc: Pc) {
    pc.Idle? || pc.Removing? ||
    (pc.Committing? && AfterPdf(pc.stage) && !pc.stage.AskAudit? && !pc.stage.AppendAudit?)
  }

  /** The same events, but that the newest completion may carry another day. */
  predicate DayApart(trail: seq<Event>, other: seq<Event>) {
    trail == other ||
    (|trail| == |other| > 0 && var n := |trail| - 1;
     trail[..n] == other[..n] && trail[n].Completed? && other[n].Completed? && trail[n] == other[n].(day := trail[n].day))
  }

  /** The same world on another day, with another trail. */
  function On(w: World, day: int, trail: seq<Event>): World {
    w.(today := day, trail := trail)
  }

  lemma FilingAsleep(w: World, context: Context, stage: Stage, day: int)
    requires stage.Snapshot? || stage.CopyPdf? || stage.MarkPdf?
    ensures CommitStep(On(w, day, w.trail), context, stage) == On(CommitStep(w, context, stage), day, w.trail)
  {
    assert Current(On(w, day, w.trail)) == Current(w);
  }

  lemma AskingAsleep(w: World, context: Context, day: int)
    ensures CommitStep(On(w, day, w.trail), context, AskAudit) == On(CommitStep(w, context, AskAudit), day, w.trail)
  {
    assert AlreadyAudited(On(w, day, w.trail)) == AlreadyAudited(w);
  }

  lemma StoringAsleep(w: World, context: Context, stage: Stage, day: int, trail: seq<Event>)
    requires stage.MarkAudit? || stage.WriteRow? || stage.WriteContent? || stage.MarkStores?
    ensures CommitStep(On(w, day, trail), context, stage) == On(CommitStep(w, context, stage), day, trail)
    ensures CommitStep(w, context, stage).trail == w.trail
  {
    assert RowOf(On(w, day, trail), context) == RowOf(w, context);
  }

  lemma EmittingAsleep(w: World, context: Context, stage: Stage, day: int, trail: seq<Event>)
    requires stage.StartEmit? || stage.Emit? || stage.MarkEmitted?
    ensures CommitStep(On(w, day, trail), context, stage) == On(CommitStep(w, context, stage), day, trail)
    ensures CommitStep(w, context, stage).trail == w.trail
  {
  }

  lemma ClosingAsleep(w: World, context: Context, stage: Stage, day: int, trail: seq<Event>)
    requires stage.CloseReceipt? || stage.DropFailed?
    ensures CommitStep(On(w, day, trail), context, stage) == On(CommitStep(w, context, stage), day, trail)
    ensures CommitStep(w, context, stage).trail == w.trail
  {
  }

  lemma RemovedAsleep(w: World, manifestFirst: bool, day: int, trail: seq<Event>)
    ensures Removed(On(w, day, trail), manifestFirst) == On(Removed(w, manifestFirst), day, trail)
    ensures Removed(w, manifestFirst).trail == w.trail
  {
  }

  lemma RemovingAsleep(w: World, outcome: Assessment, manifestFirst: bool, day: int, trail: seq<Event>)
    requires w.pc.Removing? || w.pc.Idle?
    ensures Advanced(On(w, day, trail), outcome, manifestFirst) == On(Advanced(w, outcome, manifestFirst), day, trail)
    ensures Advanced(w, outcome, manifestFirst).trail == w.trail
  {
    RemovedAsleep(w, manifestFirst, day, trail);
  }

  lemma AnsweredStays(w: World, a: Action)
    requires Answered(w.pc) && a.Advance?
    ensures Answered(Next(w, a).pc)
  {
  }

  lemma AnsweredNext(w: World, a: Action, day: int, trail: seq<Event>)
    requires Answered(w.pc) && a.Advance?
    ensures Next(On(w, day, trail), a) == On(Next(w, a), day, trail) && Next(w, a).trail == w.trail
  {
    if w.pc.Committing? {
      var context, stage := w.pc.context, w.pc.stage;
      if stage.MarkAudit? || stage.WriteRow? || stage.WriteContent? || stage.MarkStores? {
        StoringAsleep(w, context, stage, day, trail);
      } else if stage.CloseReceipt? || stage.DropFailed? {
        ClosingAsleep(w, context, stage, day, trail);
      } else {
        EmittingAsleep(w, context, stage, day, trail);
      }
    } else {
      RemovingAsleep(w, a.outcome, a.manifestFirst, day, trail);
    }
  }

  lemma {:induction false} AnsweredAsleep(w: World, day: int, trail: seq<Event>, advances: seq<Action>)
    requires Answered(w.pc) && forall i :: 0 <= i < |advances| ==> advances[i].Advance?
    ensures Run(On(w, day, trail), advances) == On(Run(w, advances), day, trail)
    ensures Run(w, advances).trail == w.trail
    decreases |advances|
  {
    if advances != [] {
      AnsweredNext(w, advances[0], day, trail);
      AnsweredStays(w, advances[0]);
      AnsweredAsleep(Next(w, advances[0]), day, trail, advances[1..]);
    }
  }

  lemma AppendingAsleep(w: World, context: Context, day: int)
    ensures var w' := CommitStep(w, context, AppendAudit);
            && w'.trail == w.trail + [Completed(Current(w).receipt, context.assessment.verdict, w.today)]
            && w'.pc == Committing(context, MarkAudit)
            && CommitStep(On(w, day, w.trail), context, AppendAudit)
               == On(w', day, w.trail + [Completed(Current(w).receipt, context.assessment.verdict, day)])
  {
  }

  lemma AppendedAsleep(w: World, day: int, advances: seq<Action>)
    requires w.pc.Committing? && w.pc.stage.AppendAudit? && advances != []
    requires forall i :: 0 <= i < |advances| ==> advances[i].Advance?
    ensures SleptOver(w, day, advances)
  {
    var context := w.pc.context;
    AppendingAsleep(w, context, day);
    var w' := CommitStep(w, context, AppendAudit);
    var trail := w.trail + [Completed(Current(w).receipt, context.assessment.verdict, day)];
    AnsweredAsleep(w', day, trail, advances[1..]);
    assert trail[..|w.trail|] == w.trail == w'.trail[..|w.trail|];
    assert DayApart(trail, w'.trail);
  }

  lemma AskedAsleep(w: World, day: int)
    requires w.pc.Committing? && !w.pc.stage.AppendAudit? && !Answered(w.pc)
    ensures var w' := CommitStep(w, w.pc.context, w.pc.stage);
            w'.pc.Committing? && w'.trail == w.trail &&
            CommitStep(On(w, day, w.trail), w.pc.context, w.pc.stage) == On(w', day, w'.trail)
  {
    AskingStays(w, w.pc.context, w.pc.stage);
    if w.pc.stage.AskAudit? {
      AskingAsleep(w, w.pc.context, day);
    } else {
      FilingAsleep(w, w.pc.context, w.pc.stage, day);
    }
  }

  predicate SleptOver(w: World, day: int, advances: seq<Action>) {
    var awake, asleep := Run(w, advances), Run(On(w, day, w.trail), advances);
    asleep == On(awake, day, asleep.trail) && DayApart(asleep.trail, awake.trail)
  }

  /** A commit that sleeps over midnight ends as one that does not, but for the day on its
      completion event. */
  lemma {:induction false} SleepShowsInTheDay(w: World, day: int, advances: seq<Action>)
    requires w.pc.Committing? && forall i :: 0 <= i < |advances| ==> advances[i].Advance?
    ensures SleptOver(w, day, advances)
    decreases |advances|
  {
    if advances != [] {
      if Answered(w.pc) {
        AnsweredAsleep(w, day, w.trail, advances);
      } else if w.pc.stage.AppendAudit? {
        AppendedAsleep(w, day, advances);
      } else {
        AskedAsleep(w, day);
        SleepShowsInTheDay(CommitStep(w, w.pc.context, w.pc.stage), day, advances[1..]);
      }
    }
  }

  lemma AskingStays(w: World, context: Context, stage: Stage)
    requires stage.Snapshot? || stage.CopyPdf? || stage.MarkPdf? || stage.AskAudit?
    ensures CommitStep(w, context, stage).pc.Committing? && CommitStep(w, context, stage).trail == w.trail
  {
  }
}
