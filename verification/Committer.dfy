/**
 `commit` as it is written: straight-line code over the stores, one durable write after
 another. Left alone it does exactly what the single steps of `CommitProtocol` do.
 */
module Committer {
  import opened Wrappers
  import opened CommitProtocol

  /** The stores of one job, as the pipeline's fields and directories hold them. */
  class JobStores {
    var manifest: Option<Manifest>
    var staged: Option<int>
    var pdfs: set<Place>
    var trail: seq<Event>
    var rows: map<int, Row>
    var content: map<int, string>
    var receipts: map<nat, Status>
    var failed: bool
    var emits: nat
    var confirmed: nat
    var nextReceipt: nat
    var today: int

    constructor (today: int)
      ensures View(Idle) == Start(today)
    {
      manifest, staged, pdfs, trail := None, None, {}, [];
      rows, content, receipts, failed := map[], map[], map[], false;
      emits, confirmed, nextReceipt := 0, 0, 0;
      this.today := today;
    }

    function View(pc: Pc): World
      reads this
    {
      World(manifest, staged, pdfs, trail, rows, content, receipts, failed, emits, confirmed, nextReceipt, today, pc)
    }

    function ReadManifest(): (m: Manifest)
      reads this
      ensures m == Current(View(Idle))
    {
      if manifest.Some? then manifest.value else Manifest(None, None, NO_STEPS, None)
    }

    /** `_checkpoint`: the manifest is rewritten whole. */
    method Checkpoint(m: Manifest)
      modifies this`manifest
      ensures manifest == Some(m)
    {
      manifest := Some(m);
    }

    /** Did an earlier attempt append this receipt's completion and die before saying so? The
        trail is read only when the manifest says an append may have happened. */
    method CompletionAlreadyAudited(m: Manifest) returns (found: bool)
      ensures found <==> m.receipt.Some? && m.steps.auditStarted && CountSince(trail, m.receipt, m.day) > 0
    {
      if m.receipt.None? || !m.steps.auditStarted { return false; }
      found := false;
      for i := 0 to |trail|
        invariant found <==> CountSince(trail[..i], m.receipt, m.day) > 0
      {
        assert trail[..i + 1][..i] == trail[..i];
        var e := trail[i];
        if e.Completed? && e.receipt == m.receipt && (m.day.Some? ==> e.day >= m.day.value) { found := true; }
      }
      assert trail[..|trail|] == trail;
    }

    /** Snapshot the assessment, copy the PDF. */
    method FilePdf(context: Context)
      modifies this`manifest, this`pdfs
      ensures View(Idle) == Filed(old(View(Idle)), context)
      ensures var m := old(ReadManifest());
              && ReadManifest() == m.(assessment := Some(if m.assessment.Some? then m.assessment.value else context.assessment),
                                      steps := m.steps.(assessed := m.steps.assessed || m.assessment.None?, pdf := true))
              && pdfs == if m.steps.pdf then old(pdfs)
                         else old(pdfs) + {Place(context.assessment.verdict == ToQuarantine, context.day)}
    {
      var m := ReadManifest();
      if m.assessment.None? {
        m := m.(steps := m.steps.(assessed := true), assessment := Some(context.assessment));
        Checkpoint(m);
      }
      if !m.steps.pdf {
        pdfs := pdfs + {PlaceOf(context)};
        Checkpoint(m.(steps := m.steps.(pdf := true)));
      }
    }

    /** Append the completion unless it is already there. */
    method AuditCompletion(context: Context)
      modifies this`manifest, this`trail
      ensures View(Idle) == Completions(old(View(Idle)), context)
      ensures var m := old(ReadManifest());
              var already := m.steps.audited ||
                (m.receipt.Some? && m.steps.auditStarted && CountSince(old(trail), m.receipt, m.day) > 0);
              && ReadManifest() == m.(steps := m.steps.(auditStarted := m.steps.auditStarted || !already, audited := true))
              && trail == if already then old(trail)
                          else old(trail) + [Completed(m.receipt, context.assessment.verdict, today)]
    {
      var m := ReadManifest();
      var already := CompletionAlreadyAudited(m);
      if !m.steps.audited && !already {
        m := m.(steps := m.steps.(auditStarted := true));
        Checkpoint(m);
        trail := trail + [Completed(m.receipt, context.assessment.verdict, today)];
      }
      Checkpoint(m.(steps := m.steps.(audited := true)));
    }

    /** Write the index row and the content row. */
    method WriteStores(context: Context)
      modifies this`manifest, this`rows, this`content
      ensures View(Idle) == StoresWritten(old(View(Idle)), context)
      ensures var m := old(ReadManifest());
              var ruleset := if m.assessment.Some? then m.assessment.value.ruleset else context.assessment.ruleset;
              var place := Place(context.assessment.verdict == ToQuarantine, context.day);
              && ReadManifest() == m.(steps := m.steps.(stored := true))
              && rows == (if m.steps.stored then old(rows)
                          else old(rows)[context.day := Row(context.assessment.verdict, place, ruleset)])
              && content == if m.steps.stored then old(content) else old(content)[context.day := context.assessment.text]
    {
      var m := ReadManifest();
      if !m.steps.stored {
        var ruleset := if m.assessment.Some? then m.assessment.value.ruleset else context.assessment.ruleset;
        rows := rows[context.day := Row(context.assessment.verdict, PlaceOf(context), ruleset)];
        content := content[context.day := context.assessment.text];
        Checkpoint(m.(steps := m.steps.(stored := true)));
      }
    }

    /** Run the emit plugins once, or refuse when an earlier run may already have happened. A
        critical plugin that raises leaves the delivery uncertain; `fault` says whether it did,
        and whether it had delivered by then. */
    method EmitOnce(context: Context, fault: Option<bool>) returns (certain: bool)
      modifies this`manifest, this`emits
      ensures var w, m := old(View(Idle)), Current(old(View(Idle)));
              && certain == (!Uncertain(m) && (fault.Some? ==> m.steps.emitted))
              && View(Idle) == if certain then EmittedOnce(w) else if Uncertain(m) then w else EmitRaised(w, fault.value)
    {
      var m := ReadManifest();
      if m.steps.emitStarted && !m.steps.emitted { return false; }
      if !m.steps.emitted {
        m := m.(steps := m.steps.(emitStarted := true));
        Checkpoint(m);
        if fault != Some(false) { emits := emits + 1; }
        if fault.Some? { return false; }
        Checkpoint(m.(steps := m.steps.(emitted := true)));
      }
      certain := true;
    }

    /** Everything that is durable before anything is delivered. */
    method Record(context: Context)
      modifies this`manifest, this`pdfs, this`trail, this`rows, this`content
      ensures View(Idle) == StoresWritten(Completions(Filed(old(View(Idle)), context), context), context)
      ensures Stages(To(old(View(Idle)), context, Snapshot)) == Stages(To(View(Idle), context, StartEmit))
      ensures RecordedAs(old(View(Idle)), View(Idle), context)
    {
      ghost var start := View(Idle);
      FilePdf(context);
      FilingStages(start, context);
      ghost var filed := View(Idle);
      AuditCompletion(context);
      CompletionStages(filed, context);
      ghost var audited := View(Idle);
      WriteStores(context);
      StoringStages(audited, context);
      RecordSays(start, context);
    }

    /** The whole commit. It stops over an uncertain delivery, old or new; otherwise it runs
        through every stage and leaves nothing in staging. */
    method Commit(context: Context, fault: Option<bool>) returns (committed: bool)
      modifies this
      ensures var done := Stages(To(old(View(Idle)), context, Snapshot));
              var stored := StoresWritten(Completions(Filed(old(View(Idle)), context), context), context);
              if committed then done.pc.Removing? && View(Idle) == done.(manifest := None, staged := None, pc := Idle)
              else if Uncertain(Current(stored)) then View(Idle) == done
              else fault.Some? && !Current(stored).steps.emitted && View(Idle) == EmitRaised(stored, fault.value)
      ensures StoredAs(old(View(Idle)), View(Idle), context)
      ensures EndedAs(old(View(Idle)), View(Idle), context, committed, fault)
    {
      ghost var start := View(Idle);
      Record(context);
      ghost var stored := View(Idle);
      committed := EmitOnce(context, fault);
      EmittingStages(stored, context);
      if !committed {
        StoppedSays(start, stored, context, fault);
        return;
      }
      ClosingStages(View(Idle), context);
      Release(context);
      ReleasedSays(start, stored, context, fault);
    }

    /** Close the receipt, drop the failure this commit supersedes, empty the staging directory. */
    method Release(context: Context)
      modifies this`receipts, this`failed, this`manifest, this`staged
      ensures View(Idle) == ReceiptClosed(old(View(Idle)), Closed(context.assessment.verdict))
                              .(failed := false, manifest := None, staged := None)
    {
      var m := ReadManifest();
      if m.receipt.Some? && m.receipt.value in receipts {
        receipts := receipts[m.receipt.value := Closed(context.assessment.verdict)];
      }
      failed := false;
      manifest, staged := None, None;
    }
  }

  // ----- what a commit writes, store by store

  /** The document in the root its verdict names, one completion, one row and its content: each
      unless the manifest, or for the completion the trail, has it already. */
  ghost predicate StoredAs(w: World, done: World, context: Context) {
    var m := Current(w);
    var ruleset := if m.assessment.Some? then m.assessment.value.ruleset else context.assessment.ruleset;
    var place := Place(context.assessment.verdict == ToQuarantine, context.day);
    && done.pdfs == (if m.steps.pdf then w.pdfs else w.pdfs + {place})
    && done.rows == (if m.steps.stored then w.rows
                     else w.rows[context.day := Row(context.assessment.verdict, place, ruleset)])
    && done.content == (if m.steps.stored then w.content else w.content[context.day := context.assessment.text])
    && done.trail == if m.steps.audited ||
                        (m.receipt.Some? && m.steps.auditStarted && CountSince(w.trail, m.receipt, m.day) > 0)
                     then w.trail
                     else w.trail + [Completed(m.receipt, context.assessment.verdict, w.today)]
  }

  ghost predicate RecordedAs(w: World, done: World, context: Context) {
    && StoredAs(w, done, context)
    && done.manifest.Some?
    && done.manifest.value.receipt == Current(w).receipt
    && done.manifest.value.steps.emitStarted == Current(w).steps.emitStarted
    && done.manifest.value.steps.emitted == Current(w).steps.emitted
    && done.receipts == w.receipts && done.failed == w.failed && done.emits == w.emits && done.staged == w.staged
  }

  /** A finished commit has delivered once in all, closed its receipt under its verdict and
      emptied staging; one that stopped leaves all that, and a delivery marked as begun. */
  ghost predicate EndedAs(w: World, done: World, context: Context, committed: bool, fault: Option<bool>) {
    var m := Current(w);
    if committed then
      && done.manifest.None? && done.staged.None? && !done.failed
      && done.emits == w.emits + (if m.steps.emitted then 0 else 1)
      && done.receipts == if m.receipt.Some? && m.receipt.value in w.receipts
                          then w.receipts[m.receipt.value := Closed(context.assessment.verdict)]
                          else w.receipts
    else
      && !m.steps.emitted && (m.steps.emitStarted || fault.Some?)
      && done.manifest.Some? && done.manifest.value.steps.emitStarted && !done.manifest.value.steps.emitted
      && done.emits == w.emits + (if !m.steps.emitStarted && fault == Some(true) then 1 else 0)
      && done.receipts == w.receipts && done.failed == w.failed && done.staged == w.staged
  }

  lemma RecordSays(w: World, context: Context)
    ensures RecordedAs(w, StoresWritten(Completions(Filed(w, context), context), context), context)
  {
    var filed := Filed(w, context);
    var audited := Completions(filed, context);
    FiledSays(w, context);
    CompletionsSay(filed, context);
    var done := StoresWritten(audited, context);
    assert done.pdfs == filed.pdfs && done.trail == audited.trail;
  }

  lemma StoppedSays(w: World, stored: World, context: Context, fault: Option<bool>)
    requires RecordedAs(w, stored, context) && (Uncertain(Current(stored)) || (fault.Some? && !Current(stored).steps.emitted))
    ensures var done := if Uncertain(Current(stored)) then stored else EmitRaised(stored, fault.value);
            StoredAs(w, done, context) && EndedAs(w, done, context, false, fault)
  {
  }

  lemma ReleasedSays(w: World, stored: World, context: Context, fault: Option<bool>)
    requires RecordedAs(w, stored, context)
    ensures var done := ReceiptClosed(EmittedOnce(stored), Closed(context.assessment.verdict))
                          .(failed := false, manifest := None, staged := None);
            StoredAs(w, done, context) && EndedAs(w, done, context, true, fault)
  {
    var emitted := EmittedOnce(stored);
    assert emitted == stored.(manifest := emitted.manifest, emits := w.emits + if Current(w).steps.emitted then 0 else 1);
    assert Current(emitted).receipt == Current(w).receipt;
    ClosedSays(emitted, Closed(context.assessment.verdict));
  }

  lemma ClosedSays(w: World, status: Status)
    ensures var done := ReceiptClosed(w, status);
            && done == w.(receipts := done.receipts)
            && done.receipts == if Current(w).receipt.Some? && Current(w).receipt.value in w.receipts
                                then w.receipts[Current(w).receipt.value := status] else w.receipts
  {
  }

  lemma FiledSays(w: World, context: Context)
    ensures var m, filed := Current(w), Filed(w, context);
            && filed == w.(manifest := filed.manifest, pdfs := filed.pdfs)
            && filed.manifest == Some(m.(assessment := Some(if m.assessment.Some? then m.assessment.value else context.assessment),
                                         steps := m.steps.(assessed := m.steps.assessed || m.assessment.None?, pdf := true)))
            && filed.pdfs == if m.steps.pdf then w.pdfs
                             else w.pdfs + {Place(context.assessment.verdict == ToQuarantine, context.day)}
  {
  }

  lemma CompletionsSay(w: World, context: Context)
    ensures var m, done := Current(w), Completions(w, context);
            var already := m.steps.audited ||
              (m.receipt.Some? && m.steps.auditStarted && CountSince(w.trail, m.receipt, m.day) > 0);
            && done == w.(manifest := done.manifest, trail := done.trail)
            && done.manifest == Some(m.(steps := m.steps.(auditStarted := m.steps.auditStarted || !already, audited := true)))
            && done.trail == if already then w.trail else w.trail + [Completed(m.receipt, context.assessment.verdict, w.today)]
  {
  }

  // ----- what each part of the code does in one piece

  function Filed(w: World, context: Context): World {
    var w' := Snapped(w, context.assessment);
    if Current(w').steps.pdf then w'
    else Marked(w'.(pdfs := w'.pdfs + {PlaceOf(context)}), Current(w').steps.(pdf := true))
  }

  function Completions(w: World, context: Context): World {
    var w' := if Current(w).steps.audited || AlreadyAudited(w) then w
              else Marked(w, Current(w).steps.(auditStarted := true))
                     .(trail := w.trail + [Completed(Current(w).receipt, context.assessment.verdict, w.today)]);
    Marked(w', Current(w').steps.(audited := true))
  }

  function StoresWritten(w: World, context: Context): World {
    if Current(w).steps.stored then w
    else
      Marked(w.(rows := w.rows[context.day := RowOf(w, context)], content := w.content[context.day := context.assessment.text]),
             Current(w).steps.(stored := true))
  }

  function EmittedOnce(w: World): World {
    if Current(w).steps.emitted then w
    else Marked(w.(emits := w.emits + 1), Current(w).steps.(emitStarted := true, emitted := true))
  }

  /** The delivery was begun, may have happened, and was not confirmed. */
  function EmitRaised(w: World, delivered: bool): World {
    Marked(w.(emits := w.emits + if delivered then 1 else 0), Current(w).steps.(emitStarted := true))
  }

  lemma DeliveryBegins(w: World, context: Context)
    requires !Current(w).steps.emitStarted && !Current(w).steps.emitted
    ensures CommitStep(To(w, context, StartEmit), context, StartEmit) == To(EmitRaised(w, false), context, Emit)
  {
  }

  lemma DeliveryHappens(w: World, context: Context)
    requires !Current(w).steps.emitStarted && !Current(w).steps.emitted
    ensures CommitStep(To(EmitRaised(w, false), context, Emit), context, Emit) == To(EmitRaised(w, true), context, MarkEmitted)
  {
  }

  /** A plugin that raises leaves the job exactly as a crash in the same place would. */
  lemma RaisedIsCrash(w: World, context: Context, delivered: bool, outcome: Assessment)
    requires w.pc.Idle? && !Current(w).steps.emitStarted && !Current(w).steps.emitted
    ensures var begun := Next(To(w, context, StartEmit), Advance(outcome, true));
            Next(if delivered then Next(begun, Advance(outcome, true)) else begun, Crash) == EmitRaised(w, delivered)
  {
    DeliveryBegins(w, context);
    DeliveryHappens(w, context);
  }

  function Rank(stage: Stage): nat {
    match stage
    case Snapshot => 13 case CopyPdf => 12 case MarkPdf => 11 case AskAudit => 10 case AppendAudit => 9
    case MarkAudit => 8 case WriteRow => 7 case WriteContent => 6 case MarkStores => 5 case StartEmit => 4
    case Emit => 3 case MarkEmitted => 2 case CloseReceipt => 1 case DropFailed => 0
  }

  lemma StagesFall(w: World, context: Context, stage: Stage)
    ensures var w' := CommitStep(w, context, stage); w'.pc.Committing? ==> w'.pc.context == context && Rank(w'.pc.stage) < Rank(stage)
  {
  }

  /** Every stage of a commit that is left alone. */
  function Stages(w: World): World
    decreases if w.pc.Committing? then 1 + Rank(w.pc.stage) else 0
  {
    if !w.pc.Committing? then w
    else
      StagesFall(w, w.pc.context, w.pc.stage);
      Stages(CommitStep(w, w.pc.context, w.pc.stage))
  }

  lemma PcIsNotRead(w: World, context: Context, stage: Stage, pc: Pc)
    ensures Following(w.(pc := pc), context, stage) == Following(w, context, stage)
  {
  }

  lemma SnapshotIgnoresPc(w: World, context: Context, stage: Stage, pc: Pc)
    requires Rank(stage) >= 12
    ensures Written(w.(pc := pc), context, stage) == Written(w, context, stage).(pc := pc)
  {
  }

  lemma MarkIgnoresPc(w: World, context: Context, pc: Pc)
    ensures Written(w.(pc := pc), context, MarkPdf) == Written(w, context, MarkPdf).(pc := pc)
  {
  }

  lemma AskIgnoresPc(w: World, context: Context, pc: Pc)
    ensures Written(w.(pc := pc), context, AskAudit) == Written(w, context, AskAudit).(pc := pc)
  {
    assert Current(w.(pc := pc)) == Current(w) && AlreadyAudited(w.(pc := pc)) == AlreadyAudited(w);
  }

  lemma StoringIgnoresPc(w: World, context: Context, stage: Stage, pc: Pc)
    requires 5 <= Rank(stage) < 10
    ensures Written(w.(pc := pc), context, stage) == Written(w, context, stage).(pc := pc)
  {
  }

  lemma EndingIgnoresPc(w: World, context: Context, stage: Stage, pc: Pc)
    requires Rank(stage) < 5
    ensures Written(w.(pc := pc), context, stage) == Written(w, context, stage).(pc := pc)
  {
  }

  /** One stage further: what it writes, and where it goes on. */
  lemma OneStage(w: World, context: Context, stage: Stage)
    ensures Stages(To(w, context, stage)) == Stages(Written(w, context, stage).(pc := Following(w, context, stage)))
  {
    PcIsNotRead(w, context, stage, Committing(context, stage));
    if Rank(stage) >= 12 {
      SnapshotIgnoresPc(w, context, stage, Committing(context, stage));
    } else if stage.MarkPdf? {
      MarkIgnoresPc(w, context, Committing(context, stage));
    } else if stage.AskAudit? {
      AskIgnoresPc(w, context, Committing(context, stage));
    } else if Rank(stage) >= 5 {
      StoringIgnoresPc(w, context, stage, Committing(context, stage));
    } else {
      EndingIgnoresPc(w, context, stage, Committing(context, stage));
    }
  }

  lemma FilingStages(w: World, context: Context)
    ensures Stages(To(w, context, Snapshot)) == Stages(To(Filed(w, context), context, AskAudit))
  {
    var w1 := Written(w, context, Snapshot);
    OneStage(w, context, Snapshot);
    OneStage(w1, context, CopyPdf);
    if !Current(w1).steps.pdf { OneStage(Written(w1, context, CopyPdf), context, MarkPdf); }
  }

  lemma CompletionStages(w: World, context: Context)
    ensures Stages(To(w, context, AskAudit)) == Stages(To(Completions(w, context), context, WriteRow))
  {
    OneStage(w, context, AskAudit);
    if Current(w).steps.audited || AlreadyAudited(w) {
      OneStage(w, context, MarkAudit);
    } else {
      var w1 := Written(w, context, AskAudit);
      OneStage(w1, context, AppendAudit);
      OneStage(Written(w1, context, AppendAudit), context, MarkAudit);
    }
  }

  lemma StoringStages(w: World, context: Context)
    ensures Stages(To(w, context, WriteRow)) == Stages(To(StoresWritten(w, context), context, StartEmit))
  {
    OneStage(w, context, WriteRow);
    if !Current(w).steps.stored {
      var w1 := Written(w, context, WriteRow);
      OneStage(w1, context, WriteContent);
      OneStage(Written(w1, context, WriteContent), context, MarkStores);
    }
  }

  lemma DeliveryStages(w: World, context: Context)
    requires !Uncertain(Current(w)) && !Current(w).steps.emitted
    ensures Stages(To(w, context, StartEmit)) == Stages(To(EmittedOnce(w), context, CloseReceipt))
  {
    OneStage(w, context, StartEmit);
    var w1 := Written(w, context, StartEmit);
    OneStage(w1, context, Emit);
    var w2 := Written(w1, context, Emit);
    OneStage(w2, context, MarkEmitted);
    assert Written(w2, context, MarkEmitted) == EmittedOnce(w);
  }

  lemma EmittingStages(w: World, context: Context)
    ensures Uncertain(Current(w)) ==> Stages(To(w, context, StartEmit)) == w.(pc := Idle)
    ensures !Uncertain(Current(w)) ==> Stages(To(w, context, StartEmit)) == Stages(To(EmittedOnce(w), context, CloseReceipt))
  {
    if !Uncertain(Current(w)) && !Current(w).steps.emitted {
      DeliveryStages(w, context);
    } else {
      OneStage(w, context, StartEmit);
    }
  }

  lemma ClosingStages(w: World, context: Context)
    ensures Stages(To(w, context, CloseReceipt)) ==
            ReceiptClosed(w, Closed(context.assessment.verdict)).(failed := false, pc := Removing)
  {
    OneStage(w, context, CloseReceipt);
    OneStage(Written(w, context, CloseReceipt), context, DropFailed);
  }
}
