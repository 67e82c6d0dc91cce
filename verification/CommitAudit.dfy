/**
 What every step of the commit protocol keeps between the manifest and the audit trail.
 */
module CommitAudit {
  import opened Wrappers
  import opened CommitProtocol

  // ----- counting

  lemma CountSnoc(trail: seq<Event>, e: Event, receipt: Option<nat>, since: Option<int>)
    ensures Count(trail + [e], receipt) == Count(trail, receipt) + if e.Completed? && e.receipt == receipt then 1 else 0
    ensures CountSince(trail + [e], receipt, since) ==
            CountSince(trail, receipt, since) +
            if e.Completed? && e.receipt == receipt && (since.Some? ==> e.day >= since.value) then 1 else 0
  {
    assert (trail + [e])[..|trail|] == trail;
  }

  lemma {:induction false} NoneSince(trail: seq<Event>, receipt: Option<nat>, since: Option<int>)
    ensures CountSince(trail, receipt, since) <= Count(trail, receipt)
  {
    if trail != [] { NoneSince(trail[..|trail| - 1], receipt, since); }
  }

  // ----- one completion per receipt

  predicate PastAudit(pc: Pc) {
    pc.Committing? && pc.stage !in {Snapshot, CopyPdf, MarkPdf, AskAudit, AppendAudit, MarkAudit}
  }

  /** What the trail holds against the manifest in staging. */
  ghost predicate TrailKept(trail: seq<Event>, m: Manifest, nextReceipt: nat, today: int) {
    && (forall r: nat :: Count(trail, Some(r)) <= if r < nextReceipt then 1 else 0)
    && (m.receipt.Some? ==> m.receipt.value < nextReceipt)
    && (m.day.Some? ==> m.day.value <= today)
    && (m.receipt.Some? ==> CountSince(trail, m.receipt, m.day) == Count(trail, m.receipt))
    && (m.receipt.Some? && Count(trail, m.receipt) > 0 ==> m.steps.auditStarted)
    && (m.steps.audited ==> Count(trail, m.receipt) > 0)
  }

  ghost predicate SomeCompletion(trail: seq<Event>) {
    exists i :: 0 <= i < |trail| && trail[i].Completed?
  }

  ghost predicate PcAudit(trail: seq<Event>, m: Manifest, pc: Pc) {
    pc.Committing? ==>
      match pc.stage
      case AppendAudit => m.steps.auditStarted && (m.receipt.Some? ==> Count(trail, m.receipt) == 0)
      case MarkAudit => Count(trail, m.receipt) > 0
      case _ => PastAudit(pc) ==> m.steps.audited
  }

  ghost predicate AuditKept(w: World) {
    && TrailKept(w.trail, Current(w), w.nextReceipt, w.today)
    && PcAudit(w.trail, Current(w), w.pc)
    && (w.rows != map[] ==> SomeCompletion(w.trail))
  }

  lemma {:induction false} CountFindsOne(trail: seq<Event>, receipt: Option<nat>)
    requires Count(trail, receipt) > 0
    ensures exists i :: 0 <= i < |trail| && trail[i].Completed? && trail[i].receipt == receipt
  {
    var n := |trail| - 1;
    if !(trail[n].Completed? && trail[n].receipt == receipt) {
      CountFindsOne(trail[..n], receipt);
      var i :| 0 <= i < n && trail[..n][i].Completed? && trail[..n][i].receipt == receipt;
      assert trail[i].Completed?;
    }
  }

  lemma {:induction false} SameCounts(trail: seq<Event>, e: Event)
    requires !e.Completed?
    ensures forall receipt :: Count(trail + [e], receipt) == Count(trail, receipt)
    ensures forall receipt, since :: CountSince(trail + [e], receipt, since) == CountSince(trail, receipt, since)
    ensures SomeCompletion(trail) ==> SomeCompletion(trail + [e])
  {
    forall receipt, since
      ensures Count(trail + [e], receipt) == Count(trail, receipt)
      ensures CountSince(trail + [e], receipt, since) == CountSince(trail, receipt, since)
    {
      CountSnoc(trail, e, receipt, since);
    }
    forall receipt ensures Count(trail + [e], receipt) == Count(trail, receipt) { CountSnoc(trail, e, receipt, None); }
    if i :| 0 <= i < |trail| && trail[i].Completed? { assert (trail + [e])[i].Completed?; }
  }

  lemma AppendOther(trail: seq<Event>, e: Event, m: Manifest, nextReceipt: nat, today: int)
    requires TrailKept(trail, m, nextReceipt, today) && !e.Completed?
    ensures TrailKept(trail + [e], m, nextReceipt, today)
    ensures SomeCompletion(trail) ==> SomeCompletion(trail + [e])
    ensures forall pc :: PcAudit(trail, m, pc) ==> PcAudit(trail + [e], m, pc)
  {
    SameCounts(trail, e);
  }

  lemma AppendCompletion(trail: seq<Event>, e: Event, m: Manifest, nextReceipt: nat, today: int)
    requires TrailKept(trail, m, nextReceipt, today)
    requires e.Completed? && e.receipt == m.receipt && e.day == today
    requires m.steps.auditStarted && (m.receipt.Some? ==> Count(trail, m.receipt) == 0)
    ensures TrailKept(trail + [e], m, nextReceipt, today)
    ensures Count(trail + [e], m.receipt) > 0 && SomeCompletion(trail + [e])
  {
    forall receipt ensures Count(trail + [e], receipt) == Count(trail, receipt) + if receipt == m.receipt then 1 else 0 {
      CountSnoc(trail, e, receipt, None);
    }
    CountSnoc(trail, e, m.receipt, m.day);
    assert (trail + [e])[|trail|].Completed?;
  }

  /** The manifest is still the same receipt's and says the same about its audit event, or it
      is gone. */
  predicate SameIdentity(m: Manifest, m': Manifest) {
    if m'.receipt.None? && m'.day.None? && !m'.steps.audited then true
    else
      && m'.receipt == m.receipt && m'.day == m.day
      && (m.steps.auditStarted ==> m'.steps.auditStarted)
      && (m'.steps.audited <==> m.steps.audited)
  }

  predicate Quiet(w: World, w': World) {
    && w'.trail == w.trail && w'.nextReceipt == w.nextReceipt && w'.today >= w.today
    && SameIdentity(Current(w), Current(w'))
    && (w'.rows != map[] ==> w.rows != map[])
  }

  lemma QuietEmitting(w: World, context: Context, stage: Stage)
    requires stage.StartEmit? || stage.Emit? || stage.MarkEmitted?
    ensures Quiet(w, CommitStep(w, context, stage))
  {
  }

  lemma QuietCommitStep(w: World, context: Context, stage: Stage)
    requires !stage.AppendAudit? && !stage.MarkAudit? && !stage.WriteRow?
    ensures Quiet(w, CommitStep(w, context, stage))
  {
    if stage.StartEmit? || stage.Emit? || stage.MarkEmitted? { QuietEmitting(w, context, stage); }
  }

  lemma QuietClaim(w: World, outcome: Assessment, manifestFirst: bool)
    requires w.pc.Idle? || w.pc.ClaimPdf? || w.pc.ClaimReceipt? || w.pc.Finishing? || w.pc.DuplicateClose?
    ensures Quiet(w, Advanced(w, outcome, manifestFirst)) && !Advanced(w, outcome, manifestFirst).pc.Committing?
  {
  }

  lemma QuietClosing(w: World, outcome: Assessment, manifestFirst: bool)
    requires w.pc.FailClose? || w.pc.Removing?
    ensures Quiet(w, Advanced(w, outcome, manifestFirst)) && !Advanced(w, outcome, manifestFirst).pc.Committing?
  {
  }

  lemma QuietFailing(w: World, outcome: Assessment, manifestFirst: bool)
    requires w.pc.FailSnapshot? || w.pc.FailCopy? || w.pc.FailClose? || w.pc.Removing?
    ensures Quiet(w, Advanced(w, outcome, manifestFirst)) && !Advanced(w, outcome, manifestFirst).pc.Committing?
  {
    if w.pc.FailSnapshot? || w.pc.FailCopy? {
    } else {
      QuietClosing(w, outcome, manifestFirst);
    }
  }

  /** `AskAudit` goes on to append only when the trail holds no completion of this receipt. */
  lemma PcAfterAsk(w: World, context: Context)
    requires AuditKept(w) && w.pc == Committing(context, AskAudit)
    ensures var w' := CommitStep(w, context, AskAudit); PcAudit(w'.trail, Current(w'), w'.pc)
  {
    NoneSince(w.trail, Current(w).receipt, Current(w).day);
  }

  lemma PcAfterCommitStep(w: World, context: Context, stage: Stage)
    requires PcAudit(w.trail, Current(w), w.pc) && w.pc == Committing(context, stage)
    requires !stage.AskAudit? && !stage.AppendAudit? && !stage.MarkAudit? && !stage.WriteRow?
    ensures var w' := CommitStep(w, context, stage); PcAudit(w'.trail, Current(w'), w'.pc)
  {
  }

  lemma AuditDuring(w: World, context: Context, stage: Stage)
    requires AuditKept(w) && w.pc == Committing(context, stage) && (stage.AppendAudit? || stage.MarkAudit? || stage.WriteRow?)
    ensures AuditKept(CommitStep(w, context, stage))
  {
    var m := Current(w);
    match stage {
      case AppendAudit =>
        AppendCompletion(w.trail, Completed(m.receipt, context.assessment.verdict, w.today), m, w.nextReceipt, w.today);
      case MarkAudit =>
      case WriteRow => CountFindsOne(w.trail, m.receipt);
    }
  }

  lemma AuditCommitStep(w: World, context: Context, stage: Stage)
    requires AuditKept(w) && w.pc == Committing(context, stage)
    ensures AuditKept(CommitStep(w, context, stage))
  {
    if stage.AppendAudit? || stage.MarkAudit? || stage.WriteRow? {
      AuditDuring(w, context, stage);
    } else {
      QuietCommitStep(w, context, stage);
      if stage.AskAudit? { PcAfterAsk(w, context); } else { PcAfterCommitStep(w, context, stage); }
    }
  }

  lemma AuditOfDuplicate(w: World, outcome: Assessment, manifestFirst: bool)
    requires AuditKept(w) && w.pc.DuplicateAudit?
    ensures AuditKept(Advanced(w, outcome, manifestFirst))
  {
    var m := Current(w);
    if m.receipt.Some? { AppendOther(w.trail, ReceivedAgain(m.receipt.value), m, w.nextReceipt, w.today); }
  }

  lemma AuditOfProcessing(w: World, outcome: Assessment, manifestFirst: bool)
    requires AuditKept(w) && w.pc.Processing?
    ensures AuditKept(Advanced(w, outcome, manifestFirst))
  {
    if outcome.verdict.Failed? { AppendOther(w.trail, JobFailed, Current(w), w.nextReceipt, w.today); }
  }

  lemma AuditAdvance(w: World, outcome: Assessment, manifestFirst: bool)
    requires AuditKept(w) && !w.pc.Committing?
    ensures AuditKept(Advanced(w, outcome, manifestFirst))
  {
    if w.pc.DuplicateAudit? {
      AuditOfDuplicate(w, outcome, manifestFirst);
    } else if w.pc.Processing? {
      AuditOfProcessing(w, outcome, manifestFirst);
    } else {
      if w.pc.FailSnapshot? || w.pc.FailCopy? || w.pc.FailClose? || w.pc.Removing? {
        QuietFailing(w, outcome, manifestFirst);
      } else {
        QuietClaim(w, outcome, manifestFirst);
      }
    }
  }

  lemma QuietStep(w: World, a: Action)
    requires a.NextDay? || a.Crash? || a.Finish? || a.Resume? || a.ConfirmRetry?
    ensures Quiet(w, Next(w, a))
  {
  }

  lemma PcOfStep(w: World, a: Action)
    requires a.NextDay? || a.Crash? || a.Finish? || a.Resume? || a.ConfirmRetry?
    ensures Next(w, a).pc == w.pc || !Next(w, a).pc.Committing? || Next(w, a).pc.stage == Snapshot
    ensures !w.pc.Idle? && !a.Crash? ==> Current(Next(w, a)) == Current(w)
  {
  }

  lemma AuditOfArrival(w: World, a: Action)
    requires AuditKept(w) && (a.Arrive? || a.ArriveAgain? || a.ArriveDuring?)
    ensures AuditKept(Next(w, a))
  {
    match a
    case ArriveAgain => AppendOther(w.trail, ReceivedAgain(w.nextReceipt), Current(w), w.nextReceipt, w.today);
    case ArriveDuring => AppendOther(w.trail, ReceivedWhileProcessing(w.nextReceipt), Current(w), w.nextReceipt, w.today);
    case Arrive => NoneSince(w.trail, Some(w.nextReceipt), Some(w.today));
  }

  lemma AuditStep(w: World, a: Action)
    requires AuditKept(w)
    ensures AuditKept(Next(w, a))
  {
    match a {
      case Advance(outcome, manifestFirst) =>
        if w.pc.Committing? { AuditCommitStep(w, w.pc.context, w.pc.stage); } else { AuditAdvance(w, outcome, manifestFirst); }
      case ArriveAgain => AuditOfArrival(w, a);
      case ArriveDuring => AuditOfArrival(w, a);
      case Arrive => AuditOfArrival(w, a);
      case _ =>
        QuietStep(w, a);
        PcOfStep(w, a);
    }
  }
}
