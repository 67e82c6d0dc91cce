/**
 Recovery of a transition that a crash left behind: what it makes of the stores, and how often
 its event ends up in the trail.
 */
module Recovery {
  import opened Wrappers
  import opened Disposition
  import opened Reassessment
  import opened Containment

  function CountMatches(trail: seq<Event>, t: Transition): nat {
    if trail == [] then 0
    else CountMatches(trail[..|trail| - 1], t) + if Matches(trail[|trail| - 1], t) then 1 else 0
  }

  lemma CountSnoc(trail: seq<Event>, e: Event, t: Transition)
    ensures CountMatches(trail + [e], t) == CountMatches(trail, t) + if Matches(e, t) then 1 else 0
  {
    assert (trail + [e])[..|trail|] == trail;
  }

  /** What recovery makes of the stores. */
  predicate CarriedOut(w: World, t: Transition, after: World) {
    && after.pending.None? && after.pc.Idle? && after.today == w.today
    && after.rows != [] && Latest(after) == t.row
    && (after.rows == w.rows || after.rows == w.rows + [t.row])
    && after.pdfs == (if w.pdfs == {} then {} else {t.row.path})
    && after.content == (if t.text.Some? then t.text else w.content)
    && after.trail == if FoundSince(w.trail, t) then w.trail else w.trail + [Transitioned(t.kind, t.row.seqNo, w.today)]
  }

  /** A recorded transition, however often it crashed and wherever, is finished by one recovery:
      its row is the current one, the file is at the row's path if there is a file at all, the
      transition is gone, and its event was appended unless one dated from the transition on
      is already there. */
  lemma RecoveryCarriesOut(w: World)
    requires ContainKept(w) && w.pending.Some? && w.pc.Idle?
    ensures CarriedOut(w, w.pending.value, Run(w, [Recover] + Advances(6)))
  {
    RunOne(w, Recover, Advances(6));
    StraightIsStepwise(Next(w, Recover), true);
    FinishedIsCarriedOut(w);
  }

  lemma FinishedIsCarriedOut(w: World)
    requires ContainKept(w) && w.pending.Some? && w.pc.Idle?
    ensures CarriedOut(w, w.pending.value, Finished(Next(w, Recover), true))
  {
    SomewhereOnDisk(w.pdfs);
  }

  /** How many matching events that leaves: exactly one, unless an event from before the
      transition file's date was missed. */
  lemma RecoveryEventCount(w: World)
    requires ContainKept(w) && w.pending.Some? && w.pc.Idle?
    ensures var t, after := w.pending.value, Run(w, [Recover] + Advances(6));
            CountMatches(after.trail, t) == 1 <==>
              CountMatches(w.trail, t) == if FoundSince(w.trail, t) then 1 else 0
  {
    RecoveryCarriesOut(w);
    CountSnoc(w.trail, Transitioned(w.pending.value.kind, w.pending.value.row.seqNo, w.today), w.pending.value);
  }

  // ----- when the trail is complete

  predicate RowsRising(rows: seq<Row>) {
    && (forall i :: 0 <= i < |rows| ==> rows[i].seqNo == i + 1)
    && (forall i :: 0 <= i < |rows| ==> rows[i].supersedes == if i == 0 then None else Some(i))
  }

  /** Sequence numbers run 1, 2, 3 without a gap, no event is ahead of them, and the pending
      transition is next in line or already the current row, with its event at most once and
      not before its file. */
  predicate HistoryKept(w: World) {
    && w.rows != [] && RowsRising(w.rows)
    && (forall i :: 0 <= i < |w.trail| && w.trail[i].Transitioned? ==> w.trail[i].toSeq <= |w.rows| && w.trail[i].day <= w.today)
    && (w.pending.Some? ==> TransitionKept(w, w.pending.value))
    && (w.pc.Applying? && !w.pc.recovering && w.pending.Some? && !w.pc.stage.Drop? ==> CountMatches(w.trail, w.pending.value) == 0)
  }

  predicate TransitionKept(w: World, t: Transition)
    requires w.rows != []
  {
    && t.day <= w.today
    && (Latest(w) == t.row || (t.row.seqNo == |w.rows| + 1 && t.row.supersedes == Some(|w.rows|)))
    && CountMatches(w.trail, t) == if FoundSince(w.trail, t) then 1 else 0
  }

  /** A purge does not take text out of a transition whose event is already there from an
      earlier day. */
  predicate TimelyPurge(w: World, a: Action) {
    a.Advance? && w.pc.PurgeText? && w.pending.Some? && w.pending.value.text.Some? ==>
      forall i :: 0 <= i < |w.trail| && Matches(w.trail[i], w.pending.value) ==> w.trail[i].day >= w.today
  }

  predicate TimelyRun(w: World, actions: seq<Action>)
    decreases |actions|
  {
    actions == [] ||
    (!actions[0].LoseIndex? && SoundStart(w, actions[0]) && TimelyPurge(w, actions[0]) &&
     TimelyRun(Next(w, actions[0]), actions[1..]))
  }

  lemma {:induction false} NoMatchesAhead(trail: seq<Event>, t: Transition)
    requires forall i :: 0 <= i < |trail| ==> !Matches(trail[i], t)
    ensures CountMatches(trail, t) == 0
  {
    if trail != [] { NoMatchesAhead(trail[..|trail| - 1], t); }
  }

  lemma {:induction false} SameMatches(trail: seq<Event>, t: Transition, u: Transition)
    requires t.kind == u.kind && t.row.seqNo == u.row.seqNo
    ensures CountMatches(trail, t) == CountMatches(trail, u)
  {
    if trail != [] { SameMatches(trail[..|trail| - 1], t, u); }
  }

  lemma {:induction false} SomeMatch(trail: seq<Event>, t: Transition) returns (i: nat)
    requires CountMatches(trail, t) > 0
    ensures i < |trail| && Matches(trail[i], t)
  {
    if Matches(trail[|trail| - 1], t) {
      i := |trail| - 1;
    } else {
      i := SomeMatch(trail[..|trail| - 1], t);
    }
  }

  lemma FoundAfterSnoc(trail: seq<Event>, e: Event, t: Transition)
    ensures FoundSince(trail + [e], t) <==> FoundSince(trail, t) || (Matches(e, t) && e.day >= t.day)
  {
    assert (trail + [e])[|trail|] == e;
    if i :| 0 <= i < |trail| && Matches(trail[i], t) && trail[i].day >= t.day { assert (trail + [e])[i] == trail[i]; }
  }

  /** Appending the event once, when none is there, or finding it. */
  lemma AuditedOnce(w: World, t: Transition, recovering: bool)
    requires w.pending == Some(t) && t.day <= w.today
    requires CountMatches(w.trail, t) == if FoundSince(w.trail, t) then 1 else 0
    requires !recovering ==> CountMatches(w.trail, t) == 0
    ensures var trail := Applied(w, Audit, recovering).trail;
            CountMatches(trail, t) == 1 && FoundSince(trail, t)
  {
    var e := Transitioned(t.kind, t.row.seqNo, w.today);
    CountSnoc(w.trail, e, t);
    FoundAfterSnoc(w.trail, e, t);
  }

  lemma HistoryAudited(w: World, recovering: bool)
    requires HistoryKept(w) && ContainKept(w) && w.pending.Some? && w.pc == Applying(Audit, recovering)
    ensures HistoryKept(Applied(w, Audit, recovering))
  {
    AuditedOnce(w, w.pending.value, recovering);
    assert w.pending.value.row.seqNo <= |w.rows|;
  }

  lemma HistoryApplied(w: World, stage: Stage, recovering: bool)
    requires HistoryKept(w) && ContainKept(w) && w.pending.Some? && w.pc == Applying(stage, recovering)
    ensures HistoryKept(Applied(w, stage, recovering))
  {
    if stage.Audit? { HistoryAudited(w, recovering); }
  }

  lemma HistoryPurging(w: World)
    requires HistoryKept(w) && Purging(w.pc) && TimelyPurge(w, Action.Advance)
    ensures HistoryKept(Advanced(w))
  {
    if w.pending.Some? {
      var t := w.pending.value;
      if w.pc.PurgeText? && t.text.Some? {
        var u := t.(text := None, day := w.today);
        SameMatches(w.trail, t, u);
        if CountMatches(w.trail, u) > 0 {
          var i := SomeMatch(w.trail, u);
          assert Matches(w.trail[i], t);
        }
      } else if w.pc.PurgeDone? {
        CountSnoc(w.trail, ContentPurged, t);
        FoundAfterSnoc(w.trail, ContentPurged, t);
      }
    }
  }

  lemma HistoryStarted(w: World, a: Action)
    requires HistoryKept(w) && Started(w, a).Some?
    ensures HistoryKept(Next(w, a))
  {
    NoMatchesAhead(w.trail, Started(w, a).value);
  }

  /** Readers and stored text are no part of the history. */
  lemma HistoryFrame(w: World, readers: map<nat, Reading>, content: Option<seq<string>>)
    requires HistoryKept(w)
    ensures HistoryKept(w.(readers := readers, content := content))
  {
  }

  predicate Reads(a: Action) {
    a.Look? || a.Evaluate? || a.Survey? || a.Rebuild?
  }

  /** No rebuild is under way: one begins only when the index is lost. */
  predicate NoRebuild(w: World) {
    forall r :: r in w.readers ==> !w.readers[r].Surveyed? && !w.readers[r].Rebuilt?
  }

  lemma NoRebuildStep(w: World, a: Action)
    requires NoRebuild(w) && w.rows != []
    ensures NoRebuild(Next(w, a))
  {
  }

  lemma ReadingOnly(w: World, a: Action)
    requires NoRebuild(w) && Started(w, a).None? && (a.Write? || a.Release? || Reads(a))
    ensures Next(w, a) == w.(readers := Next(w, a).readers, content := Next(w, a).content)
  {
  }

  lemma HistoryReading(w: World, a: Action)
    requires HistoryKept(w) && NoRebuild(w) && Started(w, a).None? && (a.Write? || a.Release? || Reads(a))
    ensures HistoryKept(Next(w, a))
  {
    ReadingOnly(w, a);
    HistoryFrame(w, Next(w, a).readers, Next(w, a).content);
  }

  lemma HistoryPurgeBegins(w: World, hard: bool)
    requires HistoryKept(w) && w.pc.Idle?
    ensures HistoryKept(Next(w, Purge(hard)))
  {
    if w.pending.Some? {
      CountSnoc(w.trail, PurgeStarted, w.pending.value);
      FoundAfterSnoc(w.trail, PurgeStarted, w.pending.value);
    }
  }

  lemma HistoryResting(w: World, a: Action)
    requires HistoryKept(w) && (a.NextDay? || a.Crash? || a.Recover?)
    ensures HistoryKept(Next(w, a))
  {
  }

  lemma HistoryStep(w: World, a: Action)
    requires HistoryKept(w) && ContainKept(w) && NoRebuild(w) && !a.LoseIndex? && TimelyPurge(w, a)
    ensures HistoryKept(Next(w, a))
  {
    match a {
      case Advance =>
        if w.pc.Applying? && w.pending.Some? {
          HistoryApplied(w, w.pc.stage, w.pc.recovering);
        } else if Purging(w.pc) {
          HistoryPurging(w);
        }
      case Purge(hard) => if w.pc.Idle? { HistoryPurgeBegins(w, hard); }
      case Write(_) => if Started(w, a).Some? { HistoryStarted(w, a); } else { HistoryReading(w, a); }
      case Release => if Started(w, a).Some? { HistoryStarted(w, a); } else { HistoryReading(w, a); }
      case _ => if Reads(a) { HistoryReading(w, a); } else { HistoryResting(w, a); }
    }
  }

  lemma {:induction false} HistoryOverRuns(w: World, actions: seq<Action>)
    requires HistoryKept(w) && ContainKept(w) && NoRebuild(w) && TimelyRun(w, actions)
    ensures HistoryKept(Run(w, actions)) && ContainKept(Run(w, actions))
    decreases |actions|
  {
    if actions != [] {
      HistoryStep(w, actions[0]);
      NoRebuildStep(w, actions[0]);
      ContainStep(w, actions[0]);
      HistoryOverRuns(Next(w, actions[0]), actions[1..]);
    }
  }

  /** Over every run whose index survives, whose starts are sound and whose purges are timely, the
      history is one chain 1, 2, 3, each row superseding the one before, and recovering what is
      pending ends with exactly one event for it. */
  lemma RecoveryIsExactlyOnce(text: Extraction, disposition: Disposition, reason: Reason, today: int, actions: seq<Action>)
    requires TimelyRun(Ingested(text, disposition, reason, today), actions)
    ensures var w := Run(Ingested(text, disposition, reason, today), actions);
            && RowsRising(w.rows)
            && (w.pending.Some? && w.pc.Idle? ==>
                  var after := Run(w, [Recover] + Advances(6));
                  CarriedOut(w, w.pending.value, after) && CountMatches(after.trail, w.pending.value) == 1)
  {
    HistoryOverRuns(Ingested(text, disposition, reason, today), actions);
    var w := Run(Ingested(text, disposition, reason, today), actions);
    if w.pending.Some? && w.pc.Idle? {
      RecoveryCarriesOut(w);
      RecoveryEventCount(w);
    }
  }

  // ----- every row has its event

  function CountSeq(trail: seq<Event>, k: nat): nat {
    if trail == [] then 0
    else CountSeq(trail[..|trail| - 1], k) +
         if trail[|trail| - 1].Transitioned? && trail[|trail| - 1].toSeq == k then 1 else 0
  }

  lemma SeqSnoc(trail: seq<Event>, e: Event, k: nat)
    ensures CountSeq(trail + [e], k) == CountSeq(trail, k) + if e.Transitioned? && e.toSeq == k then 1 else 0
  {
    assert (trail + [e])[..|trail|] == trail;
  }

  lemma {:induction false} NoneAhead(trail: seq<Event>, k: nat)
    requires forall i :: 0 <= i < |trail| && trail[i].Transitioned? ==> trail[i].toSeq < k
    ensures CountSeq(trail, k) == 0
  {
    if trail != [] { NoneAhead(trail[..|trail| - 1], k); }
  }

  predicate Underway(pending: Option<Transition>, k: nat) {
    pending.Some? && pending.value.row.seqNo == k
  }

  /** Every row after the first has exactly one event, but for the one still underway. */
  predicate OncePerRow(rows: nat, trail: seq<Event>, pending: Option<Transition>) {
    && (forall k: nat :: 2 <= k <= rows && !Underway(pending, k) ==> CountSeq(trail, k) == 1)
    && (pending.Some? ==> CountSeq(trail, pending.value.row.seqNo) == CountMatches(trail, pending.value))
  }

  predicate TrailComplete(w: World) {
    && OncePerRow(|w.rows|, w.trail, w.pending)
    && (w.pc.Applying? && w.pc.stage.Drop? && w.pending.Some? ==> FoundSince(w.trail, w.pending.value))
  }

  /** Starting over a transition whose row is written, while its event is not. */
  predicate KeepsRecord(w: World, a: Action) {
    Started(w, a).Some? && w.pending.Some? && w.rows != [] && Latest(w) == w.pending.value.row ==>
      FoundSince(w.trail, w.pending.value)
  }

  predicate RecordedRun(w: World, actions: seq<Action>)
    decreases |actions|
  {
    actions == [] || (KeepsRecord(w, actions[0]) && RecordedRun(Next(w, actions[0]), actions[1..]))
  }

  lemma OtherEvent(rows: nat, trail: seq<Event>, pending: Option<Transition>, e: Event)
    requires OncePerRow(rows, trail, pending) && !e.Transitioned?
    ensures OncePerRow(rows, trail + [e], pending)
  {
    forall k: nat ensures CountSeq(trail + [e], k) == CountSeq(trail, k) { SeqSnoc(trail, e, k); }
    if pending.Some? { CountSnoc(trail, e, pending.value); }
  }

  lemma OwnEvent(rows: nat, trail: seq<Event>, t: Transition, day: int)
    requires OncePerRow(rows, trail, Some(t))
    ensures OncePerRow(rows, trail + [Transitioned(t.kind, t.row.seqNo, day)], Some(t))
  {
    var e := Transitioned(t.kind, t.row.seqNo, day);
    forall k: nat ensures CountSeq(trail + [e], k) == CountSeq(trail, k) + if k == t.row.seqNo then 1 else 0 { SeqSnoc(trail, e, k); }
    CountSnoc(trail, e, t);
  }

  lemma CompleteStart(w: World, a: Action)
    requires HistoryKept(w) && TrailComplete(w) && Started(w, a).Some? && KeepsRecord(w, a)
    ensures TrailComplete(Next(w, a))
  {
    var t := Started(w, a).value;
    NoneAhead(w.trail, t.row.seqNo);
    NoMatchesAhead(w.trail, t);
  }

  lemma CompleteApplied(w: World, stage: Stage, recovering: bool)
    requires HistoryKept(w) && ContainKept(w) && TrailComplete(w) && w.pending.Some? && w.pc == Applying(stage, recovering)
    ensures TrailComplete(Applied(w, stage, recovering))
  {
    var t := w.pending.value;
    if stage.Audit? {
      OwnEvent(|w.rows|, w.trail, t, w.today);
      FoundAfterSnoc(w.trail, Transitioned(t.kind, t.row.seqNo, w.today), t);
    }
  }

  lemma CompletePurging(w: World)
    requires TrailComplete(w) && Purging(w.pc)
    ensures TrailComplete(Advanced(w))
  {
    if w.pc.PurgeText? && w.pending.Some? {
      SameMatches(w.trail, w.pending.value, w.pending.value.(text := None, day := w.today));
    } else if w.pc.PurgeDone? {
      OtherEvent(|w.rows|, w.trail, w.pending, ContentPurged);
    }
  }

  lemma CompleteResting(w: World, a: Action)
    requires HistoryKept(w) && NoRebuild(w) && TrailComplete(w) && Started(w, a).None? && !a.Advance? && !a.LoseIndex?
    ensures TrailComplete(Next(w, a))
  {
    OtherEvent(|w.rows|, w.trail, w.pending, PurgeStarted);
  }

  lemma CompleteStep(w: World, a: Action)
    requires HistoryKept(w) && ContainKept(w) && NoRebuild(w) && TrailComplete(w) && !a.LoseIndex? && KeepsRecord(w, a)
    ensures TrailComplete(Next(w, a))
  {
    if a.Advance? {
      if w.pc.Applying? && w.pending.Some? {
        CompleteApplied(w, w.pc.stage, w.pc.recovering);
      } else if Purging(w.pc) {
        CompletePurging(w);
      }
    } else if Started(w, a).Some? {
      CompleteStart(w, a);
    } else {
      CompleteResting(w, a);
    }
  }

  lemma {:induction false} CompleteOverRuns(w: World, actions: seq<Action>)
    requires HistoryKept(w) && ContainKept(w) && NoRebuild(w) && TrailComplete(w)
    requires TimelyRun(w, actions) && RecordedRun(w, actions)
    ensures var w' := Run(w, actions); HistoryKept(w') && ContainKept(w') && TrailComplete(w')
    decreases |actions|
  {
    if actions != [] {
      HistoryStep(w, actions[0]);
      NoRebuildStep(w, actions[0]);
      ContainStep(w, actions[0]);
      CompleteStep(w, actions[0]);
      CompleteOverRuns(Next(w, actions[0]), actions[1..]);
    }
  }

  /** Nothing is pending and every row after the first has exactly one event. */
  predicate Accounted(w: World) {
    w.pending.None? && EachOnce(w.trail, |w.rows|)
  }

  predicate EachOnce(trail: seq<Event>, n: nat) {
    forall k: nat :: 2 <= k <= n ==> CountSeq(trail, k) == 1
  }

  /** Over every such run, once nothing is pending the trail holds exactly one event for every
      row after the first. */
  lemma EveryRowHasItsEvent(text: Extraction, disposition: Disposition, reason: Reason, today: int, actions: seq<Action>)
    requires TimelyRun(Ingested(text, disposition, reason, today), actions)
    requires RecordedRun(Ingested(text, disposition, reason, today), actions)
    requires Run(Ingested(text, disposition, reason, today), actions).pending.None?
    ensures Accounted(Run(Ingested(text, disposition, reason, today), actions))
  {
    CompleteOverRuns(Ingested(text, disposition, reason, today), actions);
  }

  /** The guard is exact: a start that keeps the record ends with every row accounted for, one
      that does not leaves a row without its event. */
  lemma EveryRowHasItsEventExactly(text: Extraction, disposition: Disposition, reason: Reason, today: int, actions: seq<Action>, a: Action)
    requires TimelyRun(Ingested(text, disposition, reason, today), actions)
    requires RecordedRun(Ingested(text, disposition, reason, today), actions)
    requires var w := Run(Ingested(text, disposition, reason, today), actions); Started(w, a).Some?
    ensures var w := Run(Ingested(text, disposition, reason, today), actions);
            KeepsRecord(w, a) <==> Accounted(Run(w, [a] + Advances(6)))
  {
    var w := Run(Ingested(text, disposition, reason, today), actions);
    CompleteOverRuns(Ingested(text, disposition, reason, today), actions);
    StartAccounts(w, a);
  }

  lemma StartedTrail(w: World, a: Action)
    requires HistoryKept(w) && Started(w, a).Some?
    ensures var t, after := Started(w, a).value, Run(w, [a] + Advances(6));
            && after.pending.None? && |after.rows| == |w.rows| + 1 == t.row.seqNo
            && after.trail == w.trail + [Transitioned(t.kind, t.row.seqNo, w.today)]
  {
    StartedFinishes(w, a);
  }

  /** Whether the row underway, if it is written already, has its event decides. */
  lemma OneMoreRow(n: nat, trail: seq<Event>, pending: Option<Transition>, e: Event)
    requires OncePerRow(n, trail, pending) && e.Transitioned? && e.toSeq == n + 1 && n >= 1
    requires forall i :: 0 <= i < |trail| && trail[i].Transitioned? ==> trail[i].toSeq <= n
    requires pending.Some? ==> 2 <= pending.value.row.seqNo
    ensures EachOnce(trail + [e], n + 1) <==>
            (pending.Some? && pending.value.row.seqNo <= n ==> CountMatches(trail, pending.value) == 1)
  {
    NoneAhead(trail, n + 1);
    forall k: nat ensures CountSeq(trail + [e], k) == CountSeq(trail, k) + if k == n + 1 then 1 else 0 { SeqSnoc(trail, e, k); }
    if pending.Some? && pending.value.row.seqNo <= n {
      var k := pending.value.row.seqNo;
      assert CountSeq(trail + [e], k) == CountMatches(trail, pending.value);
    }
    if pending.Some? && pending.value.row.seqNo <= n ==> CountMatches(trail, pending.value) == 1 {
      forall k: nat | 2 <= k <= n + 1 ensures CountSeq(trail + [e], k) == 1 {
        if Underway(pending, k) { assert CountSeq(trail, k) == CountMatches(trail, pending.value); }
      }
    }
  }

  lemma StartAccounts(w: World, a: Action)
    requires HistoryKept(w) && ContainKept(w) && TrailComplete(w) && Started(w, a).Some? && w.pc.Idle?
    ensures KeepsRecord(w, a) <==> Accounted(Run(w, [a] + Advances(6)))
  {
    StartedTrail(w, a);
    var t := Started(w, a).value;
    var n, e, after := |w.rows|, Transitioned(t.kind, t.row.seqNo, w.today), Run(w, [a] + Advances(6));
    OneMoreRow(n, w.trail, w.pending, e);
    assert Accounted(after) <==> EachOnce(w.trail + [e], n + 1);
    if w.pending.Some? {
      var u := w.pending.value;
      assert TransitionKept(w, u);
      assert u.row.seqNo <= |w.rows| <==> Latest(w) == u.row;
      assert CountMatches(w.trail, u) == 1 <==> FoundSince(w.trail, u);
    }
    assert KeepsRecord(w, a) <==>
           (w.pending.Some? && w.pending.value.row.seqNo <= |w.rows| ==> CountMatches(w.trail, w.pending.value) == 1);
  }

  // ----- a purge between

  /** A purge rewrites the file of a pending transition and so gives it a new date. Recovering it
      afterwards leaves one event if and only if no event was there from an earlier day. */
  lemma PurgeThenRecovery(text: Extraction, disposition: Disposition, reason: Reason, today: int, actions: seq<Action>)
    requires TimelyRun(Ingested(text, disposition, reason, today), actions)
    requires var w := Run(Ingested(text, disposition, reason, today), actions);
             w.pc.Idle? && w.pending.Some? && w.pending.value.text.Some?
    ensures var w := Run(Ingested(text, disposition, reason, today), actions);
            var t, after := w.pending.value, Run(Run(w, [Purge(false)] + Advances(3)), [Recover] + Advances(6));
            CountMatches(after.trail, t) == 1 <==>
              forall i :: 0 <= i < |w.trail| && Matches(w.trail[i], t) ==> w.trail[i].day >= w.today
  {
    var w := Run(Ingested(text, disposition, reason, today), actions);
    HistoryOverRuns(Ingested(text, disposition, reason, today), actions);
    PurgedAndRecovered(w);
  }

  lemma PurgedAndRecovered(w: World)
    requires HistoryKept(w) && ContainKept(w) && w.pc.Idle? && w.pending.Some? && w.pending.value.text.Some?
    ensures var t, after := w.pending.value, Run(Run(w, [Purge(false)] + Advances(3)), [Recover] + Advances(6));
            CountMatches(after.trail, t) == 1 <==>
              forall i :: 0 <= i < |w.trail| && Matches(w.trail[i], t) ==> w.trail[i].day >= w.today
  {
    var t := w.pending.value;
    var u := t.(text := None, day := w.today);
    var purged := Run(w, [Purge(false)] + Advances(3));
    SoftPurge(w);
    assert purged.pending == Some(u) && ContainKept(purged);
    RecoveryEventCount(purged);
    SameMatches(w.trail, t, u);
    SameMatches(Run(purged, [Recover] + Advances(6)).trail, t, u);
    var trail := w.trail + [PurgeStarted];
    CountSnoc(w.trail, PurgeStarted, u);
    CountSnoc(trail, ContentPurged, u);
    FoundAfterSnoc(w.trail, PurgeStarted, u);
    FoundAfterSnoc(trail, ContentPurged, u);
    if CountMatches(w.trail, u) == 0 {
      forall i | 0 <= i < |w.trail| ensures !Matches(w.trail[i], t) { NotCounted(w.trail, u, i); }
    } else {
      var i := SomeMatch(w.trail, u);
      assert Matches(w.trail[i], t);
      forall j | 0 <= j < |w.trail| && Matches(w.trail[j], t) ensures j == i { CountedOnce(w.trail, t, i, j); }
      assert FoundSince(w.trail, u) <==> w.trail[i].day >= w.today;
    }
  }

  lemma {:induction false} NotCounted(trail: seq<Event>, t: Transition, i: nat)
    requires i < |trail| && CountMatches(trail, t) == 0
    ensures !Matches(trail[i], t)
  {
    if i < |trail| - 1 { NotCounted(trail[..|trail| - 1], t, i); }
  }

  lemma {:induction false} CountedOnce(trail: seq<Event>, t: Transition, i: nat, j: nat)
    requires i < |trail| && j < |trail| && Matches(trail[i], t) && Matches(trail[j], t) && CountMatches(trail, t) == 1
    ensures i == j
  {
    var n := |trail| - 1;
    if i < n && j < n {
      assert !Matches(trail[n], t) by { if Matches(trail[n], t) { NotCounted(trail[..n], t, i); } }
      CountedOnce(trail[..n], t, i, j);
    } else if i < n {
      NotCounted(trail[..n], t, i);
    } else if j < n {
      NotCounted(trail[..n], t, j);
    }
  }

  // ----- one event for one number

  function EventOf(t: Transition, day: int): Event {
    Transitioned(t.kind, t.row.seqNo, day)
  }

  /** Where a transition that was started this day is. */
  predicate Halfway(w: World, t: Transition, trail: seq<Event>, day: int) {
    if w.pending.None? then w.pc.Idle? && w.trail == trail + [EventOf(t, day)]
    else
      && w.pending == Some(t) && w.pc.Applying? && !w.pc.recovering && w.today == day
      && w.trail == if w.pc.stage.Drop? then trail + [EventOf(t, day)] else trail
  }

  lemma HalfwayOn(w: World, t: Transition, trail: seq<Event>, day: int)
    requires Halfway(w, t, trail, day)
    ensures Halfway(Advanced(w), t, trail, day)
  {
  }

  lemma {:induction false} HalfwayAfter(w: World, t: Transition, trail: seq<Event>, day: int, k: nat)
    requires Halfway(w, t, trail, day)
    ensures Halfway(Run(w, Advances(k)), t, trail, day)
    decreases k
  {
    if k > 0 {
      HalfwayOn(w, t, trail, day);
      RunAdvances(w, k);
      HalfwayAfter(Advanced(w), t, trail, day, k - 1);
    }
  }

  /** After a crash and a recovery the event is there unless one of its number was found in its
      place. */
  lemma DiesAndRecovers(w: World, t: Transition, trail: seq<Event>, day: int)
    requires Halfway(w, t, trail, day) && t.day <= day
    ensures Run(w, [Crash] + ([Recover] + Advances(6))).trail ==
            if w.trail == trail && FoundSince(trail, t) then trail else trail + [EventOf(t, day)]
  {
    var dead := Next(w, Crash);
    RunOne(w, Crash, [Recover] + Advances(6));
    RunOne(dead, Recover, Advances(6));
    if w.pending.None? {
      RestingStays(dead, 6);
      assert |w.trail| == |trail| + 1;
    } else {
      StraightIsStepwise(Next(dead, Recover), true);
      FoundAfterSnoc(trail, EventOf(t, day), t);
      assert Matches(EventOf(t, day), t);
      assert w.trail != trail ==> |w.trail| == |trail| + 1;
    }
  }

  function Interrupted(a: Action, k: nat): seq<Action> {
    [a] + (Advances(k) + ([Crash] + ([Recover] + Advances(6))))
  }

  lemma OwnEventOrFound(w: World, a: Action, k: nat)
    requires Started(w, a).Some?
    ensures var t, after := Started(w, a).value, Run(w, Interrupted(a, k));
            after.trail == w.trail + [EventOf(t, w.today)] || (FoundSince(w.trail, t) && after.trail == w.trail)
  {
    var t, begun, rest := Started(w, a).value, Next(w, a), [Crash] + ([Recover] + Advances(6));
    RunOne(w, a, Advances(k) + rest);
    RunConcat(begun, Advances(k), rest);
    HalfwayAfter(begun, t, w.trail, w.today, k);
    DiesAndRecovers(Run(begun, Advances(k)), t, w.trail, w.today);
  }

  lemma FoundIsCounted(trail: seq<Event>, t: Transition)
    ensures FoundSince(trail, t) ==> CountMatches(trail, t) > 0
  {
    if i :| 0 <= i < |trail| && Matches(trail[i], t) && trail[i].day >= t.day {
      if CountMatches(trail, t) == 0 { NotCounted(trail, t, i); }
    }
  }

  /** A transition started over any trail, old events of a lost index included, and dying after any
      of its steps or none, ends with its own event and no other of its number, if and only if the
      trail held none of that number before. */
  lemma OneEventPerNumberExactly(w: World, a: Action, k: nat)
    requires Started(w, a).Some?
    ensures var t, after := Started(w, a).value, Run(w, Interrupted(a, k));
            after.trail == w.trail + [EventOf(t, w.today)] && CountMatches(after.trail, t) == 1 <==>
              CountMatches(w.trail, t) == 0
  {
    var t := Started(w, a).value;
    OwnEventOrFound(w, a, k);
    FoundIsCounted(w.trail, t);
    CountSnoc(w.trail, EventOf(t, w.today), t);
  }
}
