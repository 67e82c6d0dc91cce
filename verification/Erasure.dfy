/**
 What a purge takes away stays away, and exactly when it does: a batch that was asked for before
 the purge, or a rebuild that began before it, may still read the file and write its text.
 */
module Erasure {
  import opened Wrappers
  import opened Disposition
  import opened Reassessment
  import opened Containment

  predicate Erased(w: World) {
    w.content.None? && (w.pending.Some? ==> w.pending.value.text.None?) && PurgeOnRecord(w.trail)
  }

  // ----- what is gone stays gone

  lemma GoneStep(w: World, a: Action)
    requires w.pdfs == {}
    ensures Next(w, a).pdfs == {}
  {
  }

  /** After a hard purge no run of anything brings a file back. */
  lemma {:induction false} HardPurgeIsNeverUndone(w: World, actions: seq<Action>)
    requires w.pdfs == {}
    ensures Run(w, actions).pdfs == {}
    decreases |actions|
  {
    if actions != [] {
      GoneStep(w, actions[0]);
      HardPurgeIsNeverUndone(Next(w, actions[0]), actions[1..]);
    }
  }

  lemma ErasureStaysOnRecord(w: World, a: Action)
    ensures var w' := Next(w, a); |w.trail| <= |w'.trail| && w'.trail[..|w.trail|] == w.trail
    ensures PurgeOnRecord(w.trail) ==> PurgeOnRecord(Next(w, a).trail)
  {
    var w' := Next(w, a);
    assert w'.trail[..|w.trail|] == w.trail;
    assert forall e :: e in w.trail ==> e in w'.trail[..|w.trail|];
  }

  // ----- where the file may still get to

  /** The judgement may still be written: no newer assessment refuses it, or the index may be
      lost and refuses nothing. */
  predicate Accepts(w: World, seqNo: nat, loss: bool) {
    loss || w.rows == [] || Latest(w).seqNo == seqNo
  }

  predicate Commits(w: World, reading: Reading, loss: bool) {
    reading.Judged? && !Towards(reading.judgement).Unchanged? && Accepts(w, reading.judgement.row.seqNo, loss)
  }

  predicate Awaits(row: Row) {
    row.releasePending && row.path.QuarantineRoot?
  }

  /** A pending transition moves the file from the archive, or a judgement that is still to be
      written does. */
  predicate MayEnter(w: World, loss: bool) {
    || (w.pending.Some? && w.pending.value.prior.ArchiveRoot? && w.pending.value.row.path.QuarantineRoot?)
    || exists r :: r in w.readers && Commits(w, w.readers[r], loss) &&
                   Towards(w.readers[r].judgement).Escalate? && w.readers[r].judgement.row.path.ArchiveRoot?
  }

  /** A release is under way, or the current row waits for one, or a row still to be written
      would. */
  predicate MayLeave(w: World, loss: bool) {
    || (w.rows != [] && Awaits(Latest(w)))
    || (w.pending.Some? && MayRelease(w, w.pending.value, loss))
    || exists r :: r in w.readers && Commits(w, w.readers[r], loss) && Awaits(NewRow({}, w.readers[r].judgement))
  }

  predicate MayRelease(w: World, t: Transition, loss: bool) {
    || (t.prior.QuarantineRoot? && t.row.path.ArchiveRoot?)
    || (Awaits(t.row) && (loss || w.rows == [] || Latest(w).seqNo < t.row.seqNo))
  }

  /** The file is at this place, or may be moved there. */
  predicate Reaches(w: World, root: Root, loss: bool) {
    root in w.pdfs ||
    match root
    case QuarantineRoot => ArchiveRoot in w.pdfs && MayEnter(w, loss)
    case ArchiveRoot => QuarantineRoot in w.pdfs && MayLeave(w, loss)
  }

  /** What a reader, left over from before, may still come to: it was asked to extract and may
      find the file, or it holds text that may still be written, or it is a rebuild that knows of
      no purge. */
  predicate Resumes(w: World, reading: Reading, loss: bool) {
    match reading
    case Looked(row, mode) => mode.Extract? && Reaches(w, row.path, loss)
    case Judged(j) => j.text.Some? && (Towards(j).Unchanged? || Accepts(w, j.row.seqNo, loss))
    case Surveyed(place, purged) => !purged && Reaches(w, place, loss)
    case Rebuilt(_, text) => text.Some?
  }

  predicate NoneResumes(w: World, loss: bool) {
    forall r :: r in w.readers ==> !Resumes(w, w.readers[r], loss)
  }

  /** Nobody asks for an extraction, and the index is not lost unless that is allowed for. */
  predicate Unasked(a: Action, loss: bool) {
    !(a.Look? && a.mode.Extract?) && (a.LoseIndex? ==> loss)
  }

  predicate AllUnasked(actions: seq<Action>, loss: bool) {
    forall i :: 0 <= i < |actions| ==> Unasked(actions[i], loss)
  }

  // ----- what such steps keep

  /** A rebuilt row waits for no release. */
  predicate Plain(w: World) {
    forall r :: r in w.readers && w.readers[r].Rebuilt? ==> !w.readers[r].row.releasePending
  }

  lemma {:induction false} PlainOverRuns(w: World, actions: seq<Action>)
    requires Plain(w)
    ensures Plain(Run(w, actions))
    decreases |actions|
  {
    if actions != [] { PlainOverRuns(Next(w, actions[0]), actions[1..]); }
  }

  predicate Kept(w: World, loss: bool) {
    Erased(w) && Plain(w) && (loss || LooksBack(w)) && NoneResumes(w, loss)
  }

  /** Fewer readers, and no new way for the file to move. */
  lemma KeptFrame(w: World, w': World, loss: bool)
    requires Kept(w, loss) && Erased(w') && (loss || LooksBack(w'))
    requires forall r :: r in w'.readers ==> r in w.readers && w'.readers[r] == w.readers[r]
    requires forall root: Root :: Reaches(w', root, loss) ==> Reaches(w, root, loss)
    requires forall r :: r in w'.readers && w'.readers[r].Judged? && Accepts(w', w'.readers[r].judgement.row.seqNo, loss) ==>
               Accepts(w, w'.readers[r].judgement.row.seqNo, loss)
    ensures Kept(w', loss)
  {
  }

  lemma KeptLooking(w: World, reader: nat, loss: bool)
    requires Kept(w, loss)
    ensures Kept(Next(w, Look(reader, Rules)), loss)
  {
    var w' := Next(w, Look(reader, Rules));
    if !loss { LooksBackStep(w, Look(reader, Rules)); }
    assert MayEnter(w', loss) ==> MayEnter(w, loss);
    assert MayLeave(w', loss) ==> MayLeave(w, loss);
  }

  lemma KeptSurveying(w: World, reader: nat, loss: bool)
    requires Kept(w, loss)
    ensures Kept(Next(w, Survey(reader)), loss)
  {
    var w' := Next(w, Survey(reader));
    assert MayEnter(w', loss) ==> MayEnter(w, loss);
    assert MayLeave(w', loss) ==> MayLeave(w, loss);
  }

  /** Where only readers go, nothing new is reached. */
  lemma FewerReaders(w: World, w': World, loss: bool)
    requires Kept(w, loss)
    requires w' == w.(readers := w'.readers)
    requires forall r :: r in w'.readers ==> r in w.readers && w'.readers[r] == w.readers[r]
    ensures Kept(w', loss)
  {
    assert MayEnter(w', loss) ==> MayEnter(w, loss);
    assert MayLeave(w', loss) ==> MayLeave(w, loss);
    KeptFrame(w, w', loss);
  }

  lemma KeptEvaluating(w: World, a: Action, loss: bool)
    requires Kept(w, loss) && a.Evaluate?
    ensures Kept(Next(w, a), loss)
  {
    FewerReaders(w, Next(w, a), loss);
  }

  lemma KeptRebuilding(w: World, reader: nat, extracted: Extraction, loss: bool)
    requires Kept(w, loss)
    ensures Kept(Next(w, Rebuild(reader, extracted)), loss)
  {
    var w' := Next(w, Rebuild(reader, extracted));
    assert MayEnter(w', loss) ==> MayEnter(w, loss);
    assert MayLeave(w', loss) ==> MayLeave(w, loss);
  }

  lemma KeptRestoring(w: World, reader: nat, loss: bool)
    requires Kept(w, loss) && IsRebuilt(w, reader)
    ensures Kept(Next(w, Write(reader)), loss)
  {
    var w' := Next(w, Write(reader));
    FirstIsReplaced(w.rows, w.readers[reader].row);
    assert loss;
    assert MayEnter(w', loss) ==> MayEnter(w, loss);
    assert MayLeave(w', loss) ==> MayLeave(w, loss);
    KeptFrame(w, w', loss);
  }

  /** Only an escalation's path depends on where the file is. */
  lemma AwaitsAlike(pdfs: set<Root>, j: Judgement)
    ensures Awaits(NewRow(pdfs, j)) <==> Awaits(NewRow({}, j))
  {
  }

  lemma StartedLeaves(w: World, a: Action, loss: bool)
    requires Started(w, a).Some?
    ensures MayLeave(Next(w, a), loss) ==> MayLeave(w, loss)
  {
    if a.Write? { AwaitsAlike(w.pdfs, w.readers[a.reader].judgement); }
  }

  lemma KeptStarted(w: World, a: Action, loss: bool)
    requires Kept(w, loss) && Started(w, a).Some?
    ensures Kept(Next(w, a), loss)
  {
    var w' := Next(w, a);
    if !loss { LooksBackStep(w, a); }
    assert MayEnter(w', loss) ==> MayEnter(w, loss);
    StartedLeaves(w, a, loss);
    KeptFrame(w, w', loss);
  }

  lemma KeptUnstarted(w: World, a: Action, loss: bool)
    requires Kept(w, loss) && Started(w, a).None? && (a.Release? || (a.Write? && !IsRebuilt(w, a.reader)))
    ensures Kept(Next(w, a), loss)
  {
    FewerReaders(w, Next(w, a), loss);
  }

  lemma SameRoutes(w: World, w': World, loss: bool)
    requires w'.rows == w.rows && w'.readers == w.readers && w'.pending == w.pending
    ensures MayEnter(w', loss) == MayEnter(w, loss) && MayLeave(w', loss) == MayLeave(w, loss)
  {
  }

  lemma FewerRoutes(w: World, w': World, loss: bool)
    requires w'.rows == w.rows && w'.readers == w.readers && w'.pending.None?
    ensures MayEnter(w', loss) ==> MayEnter(w, loss)
    ensures MayLeave(w', loss) ==> MayLeave(w, loss)
  {
  }

  /** Where neither the rows nor the readers change, and the file only goes where it could. */
  lemma KeptAdvance(w: World, w': World, loss: bool)
    requires Kept(w, loss) && w' == Advanced(w) && w'.rows == w.rows && w'.content.None?
    requires forall root: Root :: Reaches(w', root, loss) ==> Reaches(w, root, loss)
    ensures Kept(w', loss)
  {
    ErasureStaysOnRecord(w, Action.Advance);
    if !loss { LooksBackStep(w, Action.Advance); }
    KeptFrame(w, w', loss);
  }

  lemma KeptMoving(w: World, stage: Stage, recovering: bool, loss: bool)
    requires Kept(w, loss) && w.pending.Some? && w.pc == Applying(stage, recovering) && (stage.Copy? || stage.Unlink?)
    ensures Kept(Applied(w, stage, recovering), loss)
  {
    var w' := Applied(w, stage, recovering);
    SameRoutes(w, w', loss);
    KeptAdvance(w, w', loss);
  }

  lemma KeptNoting(w: World, stage: Stage, recovering: bool, loss: bool)
    requires Kept(w, loss) && w.pending.Some? && w.pc == Applying(stage, recovering)
    requires stage.Refresh? || stage.Audit? || stage.Drop?
    ensures Kept(Applied(w, stage, recovering), loss)
  {
    var w' := Applied(w, stage, recovering);
    if stage.Drop? { FewerRoutes(w, w', loss); } else { SameRoutes(w, w', loss); }
    KeptAdvance(w, w', loss);
  }

  lemma KeptRow(w: World, recovering: bool, loss: bool)
    requires Kept(w, loss) && w.pending.Some? && w.pc == Applying(WriteRow, recovering)
    ensures Kept(Applied(w, WriteRow, recovering), loss)
  {
    var w' := Applied(w, WriteRow, recovering);
    if !loss { LooksBackStep(w, Action.Advance); }
    RowRoutes(w, recovering, loss);
    KeptFrame(w, w', loss);
  }

  lemma RowRoutes(w: World, recovering: bool, loss: bool)
    requires Kept(w, loss) && w.pending.Some? && w.pc == Applying(WriteRow, recovering)
    ensures var w' := Applied(w, WriteRow, recovering);
            && (MayEnter(w', loss) ==> MayEnter(w, loss)) && (MayLeave(w', loss) ==> MayLeave(w, loss))
            && forall r :: r in w.readers && w.readers[r].Judged? && Accepts(w', w.readers[r].judgement.row.seqNo, loss) ==>
                 Accepts(w, w.readers[r].judgement.row.seqNo, loss)
  {
  }

  lemma KeptPurging(w: World, loss: bool)
    requires Kept(w, loss) && !w.pc.Applying?
    ensures Kept(Advanced(w), loss)
  {
    SameRoutes(w, Advanced(w), loss);
    KeptAdvance(w, Advanced(w), loss);
  }

  lemma KeptResting(w: World, a: Action, loss: bool)
    requires Kept(w, loss) && Unasked(a, loss) && (a.NextDay? || a.Crash? || a.Recover? || a.Purge? || a.LoseIndex?)
    ensures Kept(Next(w, a), loss)
  {
    var w' := Next(w, a);
    ErasureStaysOnRecord(w, a);
    assert MayEnter(w', loss) ==> MayEnter(w, loss);
    assert MayLeave(w', loss) ==> MayLeave(w, loss);
    KeptFrame(w, w', loss);
  }

  lemma KeptApplied(w: World, stage: Stage, recovering: bool, loss: bool)
    requires Kept(w, loss) && w.pending.Some? && w.pc == Applying(stage, recovering)
    ensures Kept(Applied(w, stage, recovering), loss)
  {
    if stage.Copy? || stage.Unlink? {
      KeptMoving(w, stage, recovering, loss);
    } else if stage.WriteRow? {
      KeptRow(w, recovering, loss);
    } else {
      KeptNoting(w, stage, recovering, loss);
    }
  }

  lemma KeptStep(w: World, a: Action, loss: bool)
    requires Kept(w, loss) && Unasked(a, loss)
    ensures Kept(Next(w, a), loss)
  {
    match a
    case Look(reader, _) => KeptLooking(w, reader, loss);
    case Survey(reader) => KeptSurveying(w, reader, loss);
    case Evaluate(_, _, _, _, _) => KeptEvaluating(w, a, loss);
    case Rebuild(reader, extracted) => KeptRebuilding(w, reader, extracted, loss);
    case Advance =>
      if w.pc.Applying? && w.pending.Some? {
        KeptApplied(w, w.pc.stage, w.pc.recovering, loss);
      } else if !w.pc.Applying? {
        KeptPurging(w, loss);
      } else {
        KeptResting(w, Crash, loss);
      }
    case Write(reader) =>
      if Started(w, a).Some? {
        KeptStarted(w, a, loss);
      } else if IsRebuilt(w, reader) {
        KeptRestoring(w, reader, loss);
      } else {
        KeptUnstarted(w, a, loss);
      }
    case Release => if Started(w, a).Some? { KeptStarted(w, a, loss); } else { KeptUnstarted(w, a, loss); }
    case _ => KeptResting(w, a, loss);
  }

  lemma {:induction false} KeptOverRuns(w: World, actions: seq<Action>, loss: bool)
    requires Kept(w, loss) && AllUnasked(actions, loss)
    ensures Kept(Run(w, actions), loss)
    decreases |actions|
  {
    if actions != [] {
      KeptStep(w, actions[0], loss);
      KeptOverRuns(Next(w, actions[0]), actions[1..], loss);
    }
  }

  // ----- how text comes back

  function Losing(loss: bool): seq<Action> {
    if loss then [LoseIndex] else []
  }

  /** The rows a later assessment could be refused over are gone, if they may go. */
  function Lost(w: World, loss: bool): World {
    if loss then w.(rows := []) else w
  }

  lemma LosesRows(w: World, loss: bool, rest: seq<Action>)
    requires w.pc.Idle?
    ensures Run(w, Losing(loss) + rest) == Run(Lost(w, loss), rest)
  {
    if loss { RunOne(w, LoseIndex, rest); } else { assert [] + rest == rest; }
  }

  lemma {:induction false} AdvancesOnly(k: nat)
    ensures |Advances(k)| == k && forall i :: 0 <= i < k ==> Advances(k)[i].Advance?
  {
    if k > 0 { AdvancesOnly(k - 1); }
  }

  lemma NobodyAsks(first: seq<Action>, loss: bool)
    requires AllUnasked(first, loss)
    ensures AllUnasked(first + Advances(6), loss) && AllUnasked(Losing(loss) + (first + Advances(6)), loss)
  {
    AdvancesOnly(6);
  }

  /** A transition that names this place, carried out where the file is at its other place. */
  predicate Brings(w: World, after: World, root: Root) {
    && after.pc.Idle? && root in after.pdfs
    && forall r :: r in w.readers && !w.readers[r].Judged? ==> r in after.readers && after.readers[r] == w.readers[r]
  }

  /** Recovering the pending transition. */
  lemma RecoveryBrings(w: World, root: Root)
    requires w.pc.Idle? && w.pending.Some?
    requires w.pending.value.prior in w.pdfs && w.pending.value.prior != root && w.pending.value.row.path == root
    ensures Brings(w, Run(w, [Recover] + Advances(6)), root)
  {
    RunOne(w, Recover, Advances(6));
    StraightIsStepwise(Next(w, Recover), true);
  }

  /** Writing an escalation. */
  lemma EscalationBrings(w: World, r: nat, loss: bool)
    requires w.pc.Idle? && ArchiveRoot in w.pdfs && r in w.readers && Commits(w, w.readers[r], loss)
    requires Towards(w.readers[r].judgement).Escalate? && w.readers[r].judgement.row.path.ArchiveRoot?
    ensures Brings(w, Run(w, Losing(loss) + ([Write(r)] + Advances(6))), QuarantineRoot)
  {
    var lost := Lost(w, loss);
    LosesRows(w, loss, [Write(r)] + Advances(6));
    assert Started(lost, Write(r)).Some?;
    StartedFinishes(lost, Write(r));
  }

  /** Releasing the current row. */
  lemma ReleaseBrings(w: World)
    requires w.pc.Idle? && QuarantineRoot in w.pdfs && w.rows != [] && Awaits(Latest(w))
    ensures Brings(w, Run(w, [Release] + Advances(6)), ArchiveRoot)
  {
    assert Started(w, Release).Some?;
    StartedFinishes(w, Release);
  }

  lemma BringsOn(w: World, between: World, after: World, root: Root)
    requires between.pc.Idle? && Brings(between, after, root)
    requires forall r :: r in w.readers && !w.readers[r].Judged? ==> r in between.readers && between.readers[r] == w.readers[r]
    ensures Brings(w, after, root)
  {
  }

  /** What is left waiting for a release when a transition to this row is done. */
  predicate LeavesWaiting(w: World, w': World) {
    && w'.pc.Idle? && QuarantineRoot in w'.pdfs && w'.rows != [] && Awaits(Latest(w'))
    && forall r :: r in w.readers && !w.readers[r].Judged? ==> r in w'.readers && w'.readers[r] == w.readers[r]
  }

  lemma RecoveryWaits(w: World, loss: bool)
    requires w.pc.Idle? && QuarantineRoot in w.pdfs && w.pending.Some? && Awaits(w.pending.value.row)
    requires loss || w.rows == [] || Latest(w).seqNo < w.pending.value.row.seqNo
    ensures LeavesWaiting(w, Run(w, Losing(loss) + ([Recover] + Advances(6))))
  {
    var lost := Lost(w, loss);
    LosesRows(w, loss, [Recover] + Advances(6));
    RunOne(lost, Recover, Advances(6));
    StraightIsStepwise(Next(lost, Recover), true);
  }

  lemma WriteWaits(w: World, r: nat, loss: bool)
    requires w.pc.Idle? && QuarantineRoot in w.pdfs && r in w.readers && Commits(w, w.readers[r], loss)
    requires Awaits(NewRow({}, w.readers[r].judgement))
    ensures LeavesWaiting(w, Run(w, Losing(loss) + ([Write(r)] + Advances(6))))
  {
    var lost := Lost(w, loss);
    LosesRows(w, loss, [Write(r)] + Advances(6));
    assert Started(lost, Write(r)).Some?;
    AwaitsAlike(lost.pdfs, w.readers[r].judgement);
    StartedFinishes(lost, Write(r));
  }

  lemma WaitsThenReleases(w: World, first: seq<Action>, loss: bool)
    requires LeavesWaiting(w, Run(w, first)) && AllUnasked(first, loss)
    ensures var actions := first + ([Release] + Advances(6));
            AllUnasked(actions, loss) && Brings(w, Run(w, actions), ArchiveRoot)
  {
    RunConcat(w, first, [Release] + Advances(6));
    ReleaseBrings(Run(w, first));
    NobodyAsks([Release], loss);
    BringsOn(w, Run(w, first), Run(Run(w, first), [Release] + Advances(6)), ArchiveRoot);
  }

  lemma ArchiveIsReached(w: World, loss: bool) returns (actions: seq<Action>)
    requires w.pc.Idle? && QuarantineRoot in w.pdfs && MayLeave(w, loss)
    ensures AllUnasked(actions, loss) && Brings(w, Run(w, actions), ArchiveRoot)
  {
    NobodyAsks([Release], loss);
    NobodyAsks([Recover], loss);
    if w.rows != [] && Awaits(Latest(w)) {
      ReleaseBrings(w);
      actions := [Release] + Advances(6);
    } else if w.pending.Some? && MayRelease(w, w.pending.value, loss) {
      if w.pending.value.prior.QuarantineRoot? && w.pending.value.row.path.ArchiveRoot? {
        RecoveryBrings(w, ArchiveRoot);
        actions := [Recover] + Advances(6);
      } else {
        var first := Losing(loss) + ([Recover] + Advances(6));
        RecoveryWaits(w, loss);
        WaitsThenReleases(w, first, loss);
        actions := first + ([Release] + Advances(6));
      }
    } else {
      var r :| r in w.readers && Commits(w, w.readers[r], loss) && Awaits(NewRow({}, w.readers[r].judgement));
      var first := Losing(loss) + ([Write(r)] + Advances(6));
      NobodyAsks([Write(r)], loss);
      WriteWaits(w, r, loss);
      WaitsThenReleases(w, first, loss);
      actions := first + ([Release] + Advances(6));
    }
  }

  lemma QuarantineIsReached(w: World, loss: bool) returns (actions: seq<Action>)
    requires w.pc.Idle? && ArchiveRoot in w.pdfs && MayEnter(w, loss)
    ensures AllUnasked(actions, loss) && Brings(w, Run(w, actions), QuarantineRoot)
  {
    if w.pending.Some? && w.pending.value.prior.ArchiveRoot? && w.pending.value.row.path.QuarantineRoot? {
      NobodyAsks([Recover], loss);
      RecoveryBrings(w, QuarantineRoot);
      actions := [Recover] + Advances(6);
    } else {
      var r :| r in w.readers && Commits(w, w.readers[r], loss) &&
               Towards(w.readers[r].judgement).Escalate? && w.readers[r].judgement.row.path.ArchiveRoot?;
      NobodyAsks([Write(r)], loss);
      EscalationBrings(w, r, loss);
      actions := Losing(loss) + ([Write(r)] + Advances(6));
    }
  }

  lemma PlaceIsReached(w: World, root: Root, loss: bool) returns (actions: seq<Action>)
    requires w.pc.Idle? && Reaches(w, root, loss)
    ensures AllUnasked(actions, loss) && Brings(w, Run(w, actions), root)
  {
    if root in w.pdfs {
      actions := [];
    } else {
      match root
      case QuarantineRoot => actions := QuarantineIsReached(w, loss);
      case ArchiveRoot => actions := ArchiveIsReached(w, loss);
    }
  }

  // ----- each kind of reader

  /** An extraction that leaves the verdict as it was is written without the lock. */
  function Extracting(r: nat, row: Row, extracted: Extraction): seq<Action> {
    [Evaluate(r, extracted, row.disposition.Quarantine?, false, true), Write(r)]
  }

  lemma ExtractionIsWritten(w: World, r: nat, extracted: Extraction)
    requires r in w.readers && w.readers[r].Looked? && w.readers[r].mode.Extract? && w.readers[r].row.path in w.pdfs
    requires SameText(w.readers[r].row, Extract, extracted)
    ensures Run(w, Extracting(r, w.readers[r].row, extracted)).content == Some(extracted.lines)
  {
    var row := w.readers[r].row;
    var a := Evaluate(r, extracted, row.disposition.Quarantine?, false, true);
    assert [a, Write(r)] == [a] + ([Write(r)] + []);
    RunOne(w, a, [Write(r)] + []);
    RunOne(Next(w, a), Write(r), []);
    assert HasJudged(Next(w, a), r);
  }

  lemma RebuildIsWritten(w: World, r: nat, extracted: Extraction)
    requires r in w.readers && w.readers[r].Surveyed? && !w.readers[r].purged && w.readers[r].place in w.pdfs
    ensures Run(w, [Rebuild(r, extracted), Write(r)]).content == if w.content.Some? then w.content else Some(extracted.lines)
  {
    var a := Rebuild(r, extracted);
    assert [a, Write(r)] == [a] + ([Write(r)] + []);
    RunOne(w, a, [Write(r)] + []);
    RunOne(Next(w, a), Write(r), []);
    assert IsRebuilt(Next(w, a), r);
  }

  lemma JudgementIsWritten(w: World, r: nat, loss: bool)
    requires w.pc.Idle? && HasJudged(w, r) && Resumes(w, w.readers[r], loss)
    ensures Run(w, Losing(loss) + ([Write(r)] + Advances(6))).content.Some?
  {
    var lost := Lost(w, loss);
    LosesRows(w, loss, [Write(r)] + Advances(6));
    RunOne(lost, Write(r), Advances(6));
    if Towards(w.readers[r].judgement).Unchanged? {
      RestingStays(Next(lost, Write(r)), 6);
    } else {
      StraightIsStepwise(Next(lost, Write(r)), false);
    }
  }

  /** Text comes back. */
  lemma Resumed(w: World, r: nat, loss: bool) returns (actions: seq<Action>)
    requires w.pc.Idle? && r in w.readers && Resumes(w, w.readers[r], loss)
    ensures AllUnasked(actions, loss) && Run(w, actions).content.Some?
  {
    var none := Extraction(0, 0, false, []);
    match w.readers[r]
    case Looked(row, _) =>
      var asBefore := Extraction(row.pageCount, 0, row.degraded, []);
      var route := PlaceIsReached(w, row.path, loss);
      RunConcat(w, route, Extracting(r, row, asBefore));
      ExtractionIsWritten(Run(w, route), r, asBefore);
      actions := route + Extracting(r, row, asBefore);
    case Judged(_) =>
      NobodyAsks([Write(r)], loss);
      JudgementIsWritten(w, r, loss);
      actions := Losing(loss) + ([Write(r)] + Advances(6));
    case Surveyed(place, _) =>
      var route := PlaceIsReached(w, place, loss);
      RunConcat(w, route, [Rebuild(r, none), Write(r)]);
      RebuildIsWritten(Run(w, route), r, none);
      actions := route + [Rebuild(r, none), Write(r)];
    case Rebuilt(_, _) =>
      actions := [Write(r)];
      assert actions == [Write(r)] + [];
      RunOne(w, Write(r), []);
  }

  // ----- exactly when a purge stays done

  predicate StaysErased(w: World, actions: seq<Action>, loss: bool) {
    AllUnasked(actions, loss) ==> Run(w, actions).content.None?
  }

  lemma ErasedExactly(w: World, loss: bool)
    requires Erased(w) && Plain(w) && (loss || LooksBack(w)) && w.pc.Idle?
    ensures NoneResumes(w, loss) <==> forall actions :: StaysErased(w, actions, loss)
  {
    if NoneResumes(w, loss) {
      forall actions ensures StaysErased(w, actions, loss) {
        if AllUnasked(actions, loss) { KeptOverRuns(w, actions, loss); }
      }
    } else {
      var r :| r in w.readers && Resumes(w, w.readers[r], loss);
      var actions := Resumed(w, r, loss);
      assert !StaysErased(w, actions, loss);
    }
  }

  /** After a completed purge, nothing that is recovered, written, released, lost, rebuilt or
      reassessed from stored text brings text back until somebody asks for a new extraction;
      exactly if no reader left over from before the purge can resume. */
  lemma PurgeIsNeverUndone(text: Extraction, disposition: Disposition, reason: Reason, today: int, before: seq<Action>)
    requires Erased(Run(Ingested(text, disposition, reason, today), before))
    requires Run(Ingested(text, disposition, reason, today), before).pc.Idle?
    ensures var w := Run(Ingested(text, disposition, reason, today), before);
            NoneResumes(w, true) <==> forall actions :: StaysErased(w, actions, true)
  {
    PlainOverRuns(Ingested(text, disposition, reason, today), before);
    ErasedExactly(Run(Ingested(text, disposition, reason, today), before), true);
  }

  lemma {:induction false} LooksBackOverRuns(w: World, actions: seq<Action>)
    requires LooksBack(w) && IndexKept(actions)
    ensures LooksBack(Run(w, actions))
    decreases |actions|
  {
    if actions != [] {
      LooksBackStep(w, actions[0]);
      LooksBackOverRuns(Next(w, actions[0]), actions[1..]);
    }
  }

  predicate IndexKept(actions: seq<Action>) {
    forall i :: 0 <= i < |actions| ==> !actions[i].LoseIndex?
  }

  /** While the index is not lost an assessment written since protects the purge as well: then a
      reader's changed verdict is refused, though not its unchanged one. */
  lemma PurgeIsNeverUndoneWithIndex(text: Extraction, disposition: Disposition, reason: Reason, today: int, before: seq<Action>)
    requires IndexKept(before)
    requires Erased(Run(Ingested(text, disposition, reason, today), before))
    requires Run(Ingested(text, disposition, reason, today), before).pc.Idle?
    ensures var w := Run(Ingested(text, disposition, reason, today), before);
            NoneResumes(w, false) <==> forall actions :: StaysErased(w, actions, false)
  {
    PlainOverRuns(Ingested(text, disposition, reason, today), before);
    LooksBackOverRuns(Ingested(text, disposition, reason, today), before);
    ErasedExactly(Run(Ingested(text, disposition, reason, today), before), false);
  }

  // ----- while a purge runs

  /** Nobody stops the purge, which ends no sooner than these steps. */
  predicate DuringPurge(w: World, actions: seq<Action>)
    decreases |actions|
  {
    actions == [] || (Purging(w.pc) && !actions[0].Crash? && DuringPurge(Next(w, actions[0]), actions[1..]))
  }

  /** Text that is written without the lock: under an unchanged verdict, or by a rebuild. */
  predicate WritesText(w: World, a: Action) {
    a.Write? && a.reader in w.readers &&
    match w.readers[a.reader]
    case Judged(j) => Towards(j).Unchanged? && j.text.Some?
    case Rebuilt(_, text) => text.Some?
    case _ => false
  }

  /** Some such write falls after the deletion of the text. */
  predicate WrittenAfterDeletion(w: World, actions: seq<Action>)
    decreases |actions|
  {
    actions != [] &&
    ((!w.pc.PurgeContent? && WritesText(w, actions[0])) || WrittenAfterDeletion(Next(w, actions[0]), actions[1..]))
  }

  /** How far the purge that began with this trail has come. */
  predicate PurgeShape(w: World, trail: seq<Event>, pdfs: set<Root>, hard: bool) {
    && w.trail == trail + [PurgeStarted] + (if w.pc.Idle? then [ContentPurged] else [])
    && (w.pc.PurgeContent? ==> w.pc.hard == hard && w.pdfs == pdfs)
    && (w.pc.PurgeText? ==> w.pc.hard == hard && w.pdfs == pdfs)
    && (w.pc.PurgeArchive? ==> hard && w.pdfs == pdfs)
    && (w.pc.PurgeQuarantine? ==> hard && w.pdfs == pdfs - {ArchiveRoot})
    && (w.pc.PurgeDone? || w.pc.Idle? ==> w.pdfs == if hard then {} else pdfs)
    && (w.pc.PurgeContent? || w.pc.PurgeText? || (w.pending.Some? ==> w.pending.value.text.None?))
    && (Purging(w.pc) || w.pc.Idle?)
  }

  lemma ShapeAdvanced(w: World, trail: seq<Event>, pdfs: set<Root>, hard: bool)
    requires PurgeShape(w, trail, pdfs, hard) && Purging(w.pc)
    ensures PurgeShape(Advanced(w), trail, pdfs, hard)
  {
    if w.pc.PurgeQuarantine? {
      forall root: Root ensures root !in Advanced(w).pdfs {
        match root
        case ArchiveRoot =>
        case QuarantineRoot =>
      }
    }
  }

  lemma ShapeOther(w: World, a: Action, trail: seq<Event>, pdfs: set<Root>, hard: bool)
    requires PurgeShape(w, trail, pdfs, hard) && Purging(w.pc) && !a.Advance? && !a.Crash?
    ensures PurgeShape(Next(w, a), trail, pdfs, hard) && Next(w, a).pc == w.pc
  {
  }

  lemma {:induction false} ShapeOverRuns(w: World, actions: seq<Action>, trail: seq<Event>, pdfs: set<Root>, hard: bool)
    requires PurgeShape(w, trail, pdfs, hard) && DuringPurge(w, actions)
    ensures PurgeShape(Run(w, actions), trail, pdfs, hard)
    decreases |actions|
  {
    if actions != [] {
      if actions[0].Advance? {
        ShapeAdvanced(w, trail, pdfs, hard);
      } else {
        ShapeOther(w, actions[0], trail, pdfs, hard);
      }
      ShapeOverRuns(Next(w, actions[0]), actions[1..], trail, pdfs, hard);
    }
  }

  lemma ContentStep(w: World, a: Action)
    requires Purging(w.pc) && !a.Crash?
    ensures w.pc.PurgeContent? ==> Next(w, a).pc.PurgeContent? || (a.Advance? && Next(w, a).content.None? && !Next(w, a).pc.Idle?)
    ensures !w.pc.PurgeContent? ==>
              !Next(w, a).pc.PurgeContent? && (Next(w, a).content.None? <==> w.content.None? && !WritesText(w, a))
  {
  }

  lemma {:induction false} ContentOverRuns(w: World, actions: seq<Action>)
    requires DuringPurge(w, actions) && !Run(w, actions).pc.PurgeContent?
    ensures Run(w, actions).content.None? <==> (w.pc.PurgeContent? || w.content.None?) && !WrittenAfterDeletion(w, actions)
    decreases |actions|
  {
    if actions != [] {
      ContentStep(w, actions[0]);
      ContentOverRuns(Next(w, actions[0]), actions[1..]);
    }
  }

  /** A purge among any steps of readers, rebuilds and the calendar: its intent and its end are on
      record, no pending transition keeps text, and a hard one leaves no file. The text is gone at
      its end if and only if nothing wrote it without the lock after it was deleted. */
  lemma PurgeErases(w: World, hard: bool, actions: seq<Action>)
    requires w.pc.Idle?
    requires var begun := Next(w, Purge(hard)); DuringPurge(begun, actions) && Run(begun, actions).pc.Idle?
    ensures var begun := Next(w, Purge(hard));
            var after := Run(begun, actions);
            && after.trail == w.trail + [PurgeStarted] + [ContentPurged]
            && (after.pending.Some? ==> after.pending.value.text.None?)
            && after.pdfs == (if hard then {} else w.pdfs)
            && (Erased(after) <==> !WrittenAfterDeletion(begun, actions))
  {
    var begun := Next(w, Purge(hard));
    var after := Run(begun, actions);
    ShapeOverRuns(begun, actions, w.trail, w.pdfs, hard);
    ContentOverRuns(begun, actions);
    assert after.trail[|w.trail|] == PurgeStarted;
  }

  /** A purge that nobody disturbs is one. */
  lemma PurgeAlone(w: World, hard: bool)
    requires w.pc.Idle?
    ensures var after := Run(w, [Purge(hard)] + Advances(5));
            after.pc.Idle? && Erased(after) && after.rows == w.rows && (hard ==> after.pdfs == {})
  {
    RunOne(w, Purge(hard), Advances(5));
    var w0 := Next(w, Purge(hard));
    assert w0.trail[|w.trail|] == PurgeStarted;
    var w1 := Advanced(w0);
    RunAdvances(w0, 5);
    RunAdvances(w1, 4);
    PurgeFinishes(Advanced(w1));
  }

  lemma PurgeFinishes(w: World)
    requires (w.pc.PurgeArchive? || w.pc.PurgeDone?) && Erased(w)
    ensures var after := Run(w, Advances(3));
            after.pc.Idle? && Erased(after) && after.rows == w.rows && (w.pc.PurgeArchive? ==> after.pdfs == {})
  {
    var w1 := Advanced(w);
    RunAdvances(w, 3);
    var w2 := Advanced(w1);
    RunAdvances(w1, 2);
    RunAdvances(w2, 1);
    if w.pc.PurgeArchive? {
      forall root: Root ensures root !in w2.pdfs {
        match root
        case ArchiveRoot =>
        case QuarantineRoot =>
      }
    }
  }

  // ----- runs in which text outlives its purge

  lemma Purged(w: World)
    requires w.pc.Idle? && w.pending.None?
    ensures var after := Run(w, [Purge(false)] + Advances(3));
            after == w.(trail := w.trail + [PurgeStarted] + [ContentPurged], content := None) && Erased(after)
  {
    SoftPurge(w);
    assert (w.trail + [PurgeStarted] + [ContentPurged])[|w.trail|] == PurgeStarted;
  }

  /** An extraction is judged, the document is purged, and the text comes back. */
  lemma TextOutlivesItsPurge(text: Extraction, extracted: Extraction)
    ensures var start := Ingested(text, Archive, NoReason, 0);
            var a := Evaluate(0, extracted, false, false, true);
            var purged := Run(start, [Look(0, Extract), a] + ([Purge(false)] + Advances(3)));
            && Erased(purged) && purged.pc.Idle?
            && Run(purged, [Write(0)] + Advances(6)).content == Some(extracted.lines)
  {
    var start := Ingested(text, Archive, NoReason, 0);
    var a := Evaluate(0, extracted, false, false, true);
    RunTwo(start, Look(0, Extract), a, [Purge(false)] + Advances(3));
    var judged := LooksAndJudges(start, 0, Extract, a);
    Purged(judged);
    var purged := Run(judged, [Purge(false)] + Advances(3));
    JudgedIsWritten(purged, 0);
  }

  /** A judgement of the current row is written, as new text or as a new assessment. */
  lemma JudgedIsWritten(w: World, r: nat)
    requires w.pc.Idle? && HasJudged(w, r) && w.rows != [] && Latest(w).seqNo == w.readers[r].judgement.row.seqNo
    requires w.readers[r].judgement.text.Some?
    ensures Run(w, [Write(r)] + Advances(6)).content == w.readers[r].judgement.text
  {
    RunOne(w, Write(r), Advances(6));
    if Towards(w.readers[r].judgement).Unchanged? {
      RestingStays(Next(w, Write(r)), 6);
    } else {
      StraightIsStepwise(Next(w, Write(r)), false);
    }
  }

  /** A batch has looked up its rows, the document is purged, and the batch goes on: it extracts
      the text from the file that is still there and writes it. Nobody asked for that since. */
  lemma BatchOutlivesThePurge(text: Extraction, extracted: Extraction)
    ensures var start := Ingested(text, Archive, NoReason, 0);
            var purged := Run(start, [Look(0, Extract)] + ([Purge(false)] + Advances(3)));
            && Erased(purged) && purged.pc.Idle?
            && Run(purged, Extracting(0, Latest(start), extracted) + Advances(6)).content == Some(extracted.lines)
  {
    var start := Ingested(text, Archive, NoReason, 0);
    RunOne(start, Look(0, Extract), [Purge(false)] + Advances(3));
    var looked := Next(start, Look(0, Extract));
    Purged(looked);
    var purged := Run(looked, [Purge(false)] + Advances(3));
    var a := Evaluate(0, extracted, false, false, true);
    assert Extracting(0, Latest(start), extracted) + Advances(6) == [a] + ([Write(0)] + Advances(6));
    RunOne(purged, a, [Write(0)] + Advances(6));
    JudgedIsWritten(Next(purged, a), 0);
  }

  /** A rebuild has asked the trail what was purged, the document is purged, and the rebuild
      restores its text. */
  lemma RebuildOutlivesThePurge(text: Extraction, extracted: Extraction)
    ensures var start := Ingested(text, Archive, NoReason, 0);
            var purged := Run(start, [LoseIndex, Survey(0)] + ([Purge(false)] + Advances(3)));
            && Erased(purged) && purged.pc.Idle?
            && Run(purged, [Rebuild(0, extracted), Write(0)]).content == Some(extracted.lines)
  {
    var start := Ingested(text, Archive, NoReason, 0);
    RunTwo(start, LoseIndex, Survey(0), [Purge(false)] + Advances(3));
    var surveyed := Next(Next(start, LoseIndex), Survey(0));
    assert surveyed.readers[0] == Surveyed(ArchiveRoot, false);
    Purged(surveyed);
    RebuildIsWritten(Run(surveyed, [Purge(false)] + Advances(3)), 0, extracted);
  }
}
