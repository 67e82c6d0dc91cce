/**
 When exactly a job ends with one index row: the row is filed under a day, and a commit that is
 resumed may look under another.
 */
module OneRow {
  import opened Wrappers
  import opened CommitProtocol
  import opened CommitRuns
  import ClaimRaces

  // Whether rows exist, and where a resume would file the decision it finds.
  datatype Home = Home(rows: set<int>, assessment: Option<Assessment>, day: Option<int>)

  function HomeOf(w: World): Home {
    Home(w.rows.Keys, Current(w).assessment, DayOf(w))
  }

  predicate Fails(a: Option<Assessment>) {
    a.Some? && a.value.verdict.Failed?
  }

  /** No second row can come of finishing for `day`: the job is indexed, a resume would file it
      there too, or a resume would only repeat a failure. */
  predicate Sole(h: Home, day: int) {
    h.rows != {} || h.day == Some(day) || Fails(h.assessment)
  }

  predicate SoleFinish(w: World, day: int) {
    Sole(HomeOf(w), day)
  }

  predicate Begins(w: World, a: Action) {
    a.Finish? && w.pc.Idle? && w.staged.Some?
  }

  predicate SoleRun(w: World, actions: seq<Action>)
    decreases |actions|
  {
    actions == [] ||
    ((Begins(w, actions[0]) ==> SoleFinish(w, actions[0].day)) && SoleRun(Next(w, actions[0]), actions[1..]))
  }

  predicate AtMostOne(rows: set<int>) {
    forall day, other :: day in rows && other in rows ==> day == other
  }

  predicate PcSole(h: Home, pc: Pc) {
    match pc
    case Finishing(day) => Sole(h, day)
    case Processing(day) => h.day == Some(day) || Fails(h.assessment)
    case Committing(context, stage) =>
      && (h.rows != {} ==> context.day in h.rows)
      && (h.day == Some(context.day) || Fails(h.assessment))
    case _ => true
  }

  predicate HomeKept(h: Home) {
    AtMostOne(h.rows) && (h.rows != {} && h.assessment.Some? && !Fails(h.assessment) && h.day.Some? ==> h.day.value in h.rows)
  }

  predicate SoleKept(w: World) {
    HomeKept(HomeOf(w)) && PcSole(HomeOf(w), w.pc)
  }

  lemma SoleFrame(w: World, w': World)
    requires SoleKept(w) && HomeOf(w') == HomeOf(w) && PcSole(HomeOf(w'), w'.pc)
    ensures SoleKept(w')
  {
  }

  lemma SoleSnapshot(w: World, context: Context)
    requires SoleKept(w) && w.pc == Committing(context, Snapshot)
    ensures SoleKept(CommitStep(w, context, Snapshot))
  {
  }

  lemma HomeStays(w: World, context: Context, stage: Stage)
    requires !stage.Snapshot? && !stage.WriteRow?
    ensures HomeOf(CommitStep(w, context, stage)) == HomeOf(w)
  {
  }

  lemma SoleRow(w: World, context: Context)
    requires SoleKept(w) && w.pc == Committing(context, WriteRow)
    ensures SoleKept(CommitStep(w, context, WriteRow))
  {
    var h, h' := HomeOf(w), HomeOf(CommitStep(w, context, WriteRow));
    assert h'.rows == h.rows || h'.rows == h.rows + {context.day};
  }

  lemma SoleCommitStep(w: World, context: Context, stage: Stage)
    requires SoleKept(w) && w.pc == Committing(context, stage)
    ensures SoleKept(CommitStep(w, context, stage))
  {
    if stage.Snapshot? {
      SoleSnapshot(w, context);
    } else if stage.WriteRow? {
      SoleRow(w, context);
    } else {
      HomeStays(w, context, stage);
      ContextStays(w, context, stage);
      SoleFrame(w, CommitStep(w, context, stage));
    }
  }

  lemma ContextStays(w: World, context: Context, stage: Stage)
    ensures var pc := CommitStep(w, context, stage).pc;
            (pc.Committing? && pc.context == context) || pc.Idle? || pc.Removing?
  {
  }

  lemma SoleClaiming(w: World, outcome: Assessment, manifestFirst: bool)
    requires SoleKept(w) && (w.pc.Idle? || w.pc.ClaimPdf? || w.pc.ClaimReceipt? || w.pc.Finishing?) && ClaimFresh(w)
    ensures SoleKept(Advanced(w, outcome, manifestFirst))
  {
    assert w.rows == map[] <==> w.rows.Keys == {};
  }

  lemma SoleProcessing(w: World, outcome: Assessment, manifestFirst: bool)
    requires SoleKept(w) && w.pc.Processing? && EmitKept(w)
    ensures SoleKept(Advanced(w, outcome, manifestFirst))
  {
    SoleFrame(w, Advanced(w, outcome, manifestFirst));
  }

  lemma SoleDuplicate(w: World, outcome: Assessment, manifestFirst: bool)
    requires SoleKept(w) && (w.pc.DuplicateClose? || w.pc.DuplicateAudit?)
    ensures SoleKept(Advanced(w, outcome, manifestFirst))
  {
    SoleFrame(w, Advanced(w, outcome, manifestFirst));
  }

  lemma SoleFailing(w: World, outcome: Assessment, manifestFirst: bool)
    requires SoleKept(w) && FailsFailed(w) && (w.pc.FailSnapshot? || w.pc.FailCopy? || w.pc.FailClose?)
    ensures SoleKept(Advanced(w, outcome, manifestFirst))
  {
  }

  lemma SoleRemoving(w: World, outcome: Assessment, manifestFirst: bool)
    requires SoleKept(w) && w.pc.Removing?
    ensures SoleKept(Advanced(w, outcome, manifestFirst))
  {
    var w' := Removed(w, manifestFirst);
    assert w' == w.(manifest := w'.manifest, staged := w'.staged, pc := w'.pc) && !w'.pc.Committing?;
    var h, h' := HomeOf(w), HomeOf(w');
    assert h'.rows == h.rows;
    assert h'.assessment.None? || (h'.assessment == h.assessment && (h'.day == h.day || h'.day.None?));
  }

  /** Only a failure is recorded as one. */
  predicate FailsFailed(w: World) {
    w.pc.FailSnapshot? ==> w.pc.context.assessment.verdict.Failed?
  }

  predicate ClaimFresh(w: World) {
    w.pc.ClaimPdf? ==> Current(w).assessment.None?
  }

  lemma SoleAdvance(w: World, outcome: Assessment, manifestFirst: bool)
    requires SoleKept(w) && EmitKept(w) && FailsFailed(w) && ClaimFresh(w)
    ensures SoleKept(Advanced(w, outcome, manifestFirst))
  {
    match w.pc
    case Committing(context, stage) => SoleCommitStep(w, context, stage);
    case Processing(_) => SoleProcessing(w, outcome, manifestFirst);
    case DuplicateClose => SoleDuplicate(w, outcome, manifestFirst);
    case DuplicateAudit => SoleDuplicate(w, outcome, manifestFirst);
    case Removing => SoleRemoving(w, outcome, manifestFirst);
    case FailSnapshot(_) => SoleFailing(w, outcome, manifestFirst);
    case FailCopy => SoleFailing(w, outcome, manifestFirst);
    case FailClose => SoleFailing(w, outcome, manifestFirst);
    case _ => SoleClaiming(w, outcome, manifestFirst);
  }

  lemma SoleOutside(w: World, a: Action)
    requires SoleKept(w) && !a.Advance? && !a.Resume? && (Begins(w, a) ==> SoleFinish(w, a.day))
    ensures SoleKept(Next(w, a))
  {
  }

  lemma SoleResume(w: World)
    requires SoleKept(w) && w.pc.Idle?
    ensures SoleKept(Resumed(w))
  {
    ResumeOnlyBegins(w);
    assert HomeOf(Resumed(w)) == HomeOf(w);
  }

  lemma SoleStep(w: World, a: Action)
    requires SoleKept(w) && EmitKept(w) && FailsFailed(w) && ClaimFresh(w) && (Begins(w, a) ==> SoleFinish(w, a.day))
    ensures SoleKept(Next(w, a))
  {
    if a.Advance? {
      SoleAdvance(w, a.outcome, a.manifestFirst);
    } else if a.Resume? {
      if w.pc.Idle? { SoleResume(w); }
    } else {
      SoleOutside(w, a);
    }
  }

  lemma FailsStep(w: World, a: Action)
    requires FailsFailed(w) && ClaimFresh(w)
    ensures FailsFailed(Next(w, a)) && ClaimFresh(Next(w, a))
  {
    if a.Advance? {
      FailsAdvance(w, a.outcome, a.manifestFirst);
    } else if a.Resume? && w.pc.Idle? {
      ResumeOnlyBegins(w);
    }
  }

  lemma FailsAdvance(w: World, outcome: Assessment, manifestFirst: bool)
    ensures FailsFailed(Advanced(w, outcome, manifestFirst)) && !Advanced(w, outcome, manifestFirst).pc.ClaimPdf?
  {
    if w.pc.Committing? { ContextStays(w, w.pc.context, w.pc.stage); }
  }

  lemma {:induction false} SoleOverRuns(w: World, actions: seq<Action>)
    requires SoleKept(w) && EmitKept(w) && FailsFailed(w) && ClaimFresh(w) && SoleRun(w, actions)
    ensures var w' := Run(w, actions); SoleKept(w') && EmitKept(w') && FailsFailed(w') && ClaimFresh(w')
    decreases |actions|
  {
    if actions != [] {
      SoleStep(w, actions[0]);
      EmitStep(w, actions[0]);
      FailsStep(w, actions[0]);
      SoleOverRuns(Next(w, actions[0]), actions[1..]);
    }
  }

  // ----- how a second row comes about

  predicate Filed(w: World, w': World, context: Context) {
    && w'.pc == Committing(context, AskAudit) && w'.rows == w.rows && w'.staged == w.staged && w'.manifest.Some?
    && Current(w') == Current(w).(steps := Current(w').steps, assessment := Current(w').assessment)
    && Current(w').steps == Current(w).steps.(pdf := true, assessed := Current(w').steps.assessed)
    && Current(w').assessment == if Current(w).assessment.Some? then Current(w).assessment else Some(context.assessment)
  }

  lemma SnappedIsFiled(w: World, context: Context)
    requires Current(w).steps.pdf
    ensures var w' := Snapped(w, context.assessment);
            Current(w').steps.pdf && Filed(w, To(w', context, AskAudit), context)
  {
    assert w.manifest.Some?;
  }

  lemma SkipsFiled(w: World, context: Context, a: Action)
    requires w.pc == Committing(context, Snapshot) && Current(w).steps.pdf && a.Advance?
    ensures Filed(w, Run(w, [a, a]), context)
  {
    RunTwo(w, a, a);
    SnappedIsFiled(w, context);
    var w' := Snapped(w, context.assessment);
    assert Next(w, a) == To(w', context, CopyPdf);
    assert Next(To(w', context, CopyPdf), a) == To(w', context, AskAudit);
  }

  /** From the snapshot of a job to the question about its audit event. */
  lemma Files(w: World, context: Context, outcome: Assessment) returns (w': World, actions: seq<Action>)
    requires w.pc == Committing(context, Snapshot)
    ensures w' == Run(w, actions) && Filed(w, w', context)
    ensures forall i :: 0 <= i < |actions| ==> actions[i].Advance?
  {
    if !Current(w).steps.pdf {
      w', actions := ClaimRaces.Copies(w, context, outcome);
    } else {
      var a := Advance(outcome, true);
      actions := [a, a];
      SkipsFiled(w, context, a);
      w' := Run(w, actions);
    }
  }

  /** Finish, die after the row, resume: the other day's row is written as well. */
  lemma {:induction false} SecondRow(w: World, day: int) returns (actions: seq<Action>)
    requires w.pc.Idle? && w.staged.Some? && w.rows == map[] && EmitKept(w)
    requires !SoleFinish(w, day)
    ensures ClaimRaces.FinishesOnce(actions, day) && !AtMostOne(Run(w, actions).rows.Keys)
  {
    var outcome := ClaimRaces.Outcome(false);
    var context := Context(day, outcome);
    var w1, a1 := ClaimRaces.Processes(w, day, outcome);
    var w2, a2 := Files(w1, context, outcome);
    var a3 := ClaimRaces.RowFollows(w2, context, outcome);
    var w3 := Run(w2, a3);
    var w4 := ClaimRaces.DiesAndResumes(w3);
    var again := w4.pc.context;
    var w5, a5 := Files(w4, again, outcome);
    var a6 := ClaimRaces.RowFollows(w5, again, outcome);
    RunConcat(w, a1, a2);
    RunConcat(w, a1 + a2, a3);
    RunConcat(w, a1 + a2 + a3, [Crash, Resume]);
    RunConcat(w, a1 + a2 + a3 + [Crash, Resume], a5);
    RunConcat(w, a1 + a2 + a3 + [Crash, Resume] + a5, a6);
    actions := a1 + a2 + a3 + [Crash, Resume] + a5 + a6;
    assert day in Run(w, actions).rows && again.day in Run(w, actions).rows;
  }

  lemma {:induction false} UnfinishedIsSole(w: World, actions: seq<Action>)
    requires forall i :: 0 <= i < |actions| ==> !actions[i].Finish?
    ensures SoleRun(w, actions)
    decreases |actions|
  {
    if actions != [] { UnfinishedIsSole(Next(w, actions[0]), actions[1..]); }
  }

  /** In whatever state such runs lead to, a claim may be finished for `day` if and only if
      nothing that may follow ever gives the job a second row. */
  lemma OneRowExactly(today: int, actions: seq<Action>, day: int)
    requires SoleRun(Start(today), actions)
    requires Run(Start(today), actions).pc.Idle? && Run(Start(today), actions).staged.Some?
    ensures var w := Run(Start(today), actions);
            SoleFinish(w, day) <==> forall rest | ClaimRaces.FinishesOnce(rest, day) :: AtMostOne(Run(w, rest).rows.Keys)
  {
    var w := Run(Start(today), actions);
    SoleOverRuns(Start(today), actions);
    if SoleFinish(w, day) {
      forall rest | ClaimRaces.FinishesOnce(rest, day) ensures AtMostOne(Run(w, rest).rows.Keys) {
        UnfinishedIsSole(Next(w, rest[0]), rest[1..]);
        SoleOverRuns(w, rest);
      }
    } else {
      assert w.rows == map[] by { assert w.rows.Keys == {}; }
      var rest := SecondRow(w, day);
      assert ClaimRaces.FinishesOnce(rest, day) && !AtMostOne(Run(w, rest).rows.Keys);
    }
  }

  /** As long as every claim is finished when its guard holds, a job never has two rows. */
  lemma JobHasOneRow(today: int, actions: seq<Action>)
    requires SoleRun(Start(today), actions)
    ensures AtMostOne(Run(Start(today), actions).rows.Keys)
  {
    SoleOverRuns(Start(today), actions);
  }
}
