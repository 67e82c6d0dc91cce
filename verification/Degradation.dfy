/**
 A document whose extraction was degraded, under reassessments that never look at the PDF.
 */
module Degradation {
  import opened Wrappers
  import opened Disposition
  import opened Reassessment
  import opened Containment

  predicate Condemned(row: Row) {
    row.degraded && row.disposition.Quarantine? && !row.releasePending
  }

  predicate ReadingHeld(reading: Reading) {
    match reading
    case Looked(row, mode) => Condemned(row) && mode.Rules?
    case Judged(j) => Condemned(j.row) && j.to.Quarantine? && j.degraded && j.text.None?
    case Surveyed(place, _) => place.QuarantineRoot?
    case Rebuilt(row, _) => Condemned(row)
  }

  predicate HeldBack(w: World) {
    && (w.rows != [] ==> Condemned(Latest(w)))
    && (w.pending.Some? ==> Condemned(w.pending.value.row) && w.pending.value.kind.Reassessed?)
    && (forall r :: r in w.readers ==> ReadingHeld(w.readers[r]))
  }

  /** A rebuild under way reads what it surveyed. */
  predicate Rebuilds(w: World, a: Action) {
    && a.Rebuild? && a.reader in w.readers && w.readers[a.reader].Surveyed?
    && w.readers[a.reader].place in w.pdfs
  }

  /** The mark is recovered by a rebuild exactly when the text is gone as well and a fresh
      extraction finds it again. */
  predicate MarkFound(w: World, extracted: Extraction) {
    w.content.None? && extracted.degraded
  }

  /** Reassessments only use the stored text, with `quarantine_on_degraded` on, and rebuilds find
      the mark. */
  predicate CheapAndStrict(w: World, a: Action) {
    && (a.Look? ==> a.mode.Rules?)
    && (a.Evaluate? ==> a.quarantineOnDegraded)
    && (Rebuilds(w, a) ==> MarkFound(w, a.extracted))
  }

  predicate CheapRun(w: World, actions: seq<Action>)
    decreases |actions|
  {
    actions == [] || (CheapAndStrict(w, actions[0]) && CheapRun(Next(w, actions[0]), actions[1..]))
  }

  lemma HeldEvaluating(w: World, a: Action)
    requires HeldBack(w) && a.Evaluate? && CheapAndStrict(w, a)
    ensures HeldBack(Next(w, a))
  {
  }

  lemma HeldWriting(w: World, a: Action)
    requires HeldBack(w) && ((a.Write? && !IsRebuilt(w, a.reader)) || a.Release?)
    ensures HeldBack(Next(w, a))
  {
  }

  lemma HeldLooking(w: World, a: Action)
    requires HeldBack(w) && Contained(w) && (a.Look? || a.Survey?) && CheapAndStrict(w, a)
    ensures HeldBack(Next(w, a))
  {
    SomewhereOnDisk(w.pdfs);
  }

  lemma HeldRestoring(w: World, reader: nat)
    requires HeldBack(w) && IsRebuilt(w, reader)
    ensures HeldBack(Next(w, Write(reader)))
  {
    FirstIsReplaced(w.rows, w.readers[reader].row);
  }

  /** A rebuild keeps the mark if and only if it finds it. */
  lemma MarkSurvivesReindex(w: World, a: Action)
    requires HeldBack(w) && Rebuilds(w, a)
    ensures HeldBack(Next(w, a)) <==> MarkFound(w, a.extracted)
    ensures IsRebuilt(Next(w, a), a.reader) && Next(w, a).readers[a.reader].row.disposition.Quarantine?
  {
    var w' := Next(w, a);
    assert w'.readers[a.reader].Rebuilt?;
    if MarkFound(w, a.extracted) {
      forall r | r in w'.readers ensures ReadingHeld(w'.readers[r]) {
        if r != a.reader { assert w'.readers[r] == w.readers[r]; }
      }
    } else {
      assert !ReadingHeld(w'.readers[a.reader]);
    }
  }

  lemma HeldStep(w: World, a: Action)
    requires HeldBack(w) && Contained(w) && CheapAndStrict(w, a)
    ensures HeldBack(Next(w, a)) && Contained(Next(w, a))
  {
    if a.Evaluate? {
      HeldEvaluating(w, a);
    } else if a.Look? || a.Survey? {
      HeldLooking(w, a);
    } else if a.Write? && IsRebuilt(w, a.reader) {
      HeldRestoring(w, a.reader);
    } else if a.Write? || a.Release? {
      HeldWriting(w, a);
    } else if Rebuilds(w, a) {
      MarkSurvivesReindex(w, a);
    }
    if !a.Release? { ContainedStep(w, a); }
  }

  /** No sequence of rules-mode reassessments, release attempts, purges, crashes, recoveries and
      rebuilds that find the mark clears a degraded document, whatever the rules find; nor does
      its file leave quarantine. */
  lemma {:induction false} RulesModeNeverClearsDegraded(w: World, actions: seq<Action>)
    requires HeldBack(w) && Contained(w) && CheapRun(w, actions)
    ensures HeldBack(Run(w, actions)) && Contained(Run(w, actions))
    decreases |actions|
  {
    if actions != [] {
      HeldStep(w, actions[0]);
      RulesModeNeverClearsDegraded(Next(w, actions[0]), actions[1..]);
    }
  }

  /** One rules-mode reassessment. */
  function Reassess(reader: nat, hit: bool, same: bool): seq<Action> {
    Reader(reader, Rules, Extraction(0, 0, false, []), hit, true, same)
  }

  /** What comes of a judgement that is written and left alone. */
  function Settled(w: World, j: Option<Judgement>): World {
    if j.None? || (Towards(j.value).Unchanged? && j.value.text.None?) then w
    else if Towards(j.value).Unchanged? then w.(content := j.value.text)
    else if WriteOf(w, j.value).None? then w
    else Finished(w.(pending := WriteOf(w, j.value), pc := Applying(Copy, false)), false)
  }

  lemma SettledByRun(w: World, j: Judgement)
    requires w.pc.Idle?
    ensures Run(Written(w, j), Advances(6)) == Settled(w, Some(j))
  {
    if Towards(j).Unchanged? || WriteOf(w, j).None? {
      RestingStays(Written(w, j), 6);
    } else {
      StraightIsStepwise(Written(w, j), false);
    }
  }

  function Verdict(w: World, hit: bool, same: bool): Option<Judgement>
    requires w.rows != []
  {
    Judge(w.content, w.pdfs, Latest(w), Rules, Extraction(0, 0, false, []), hit, true, same)
  }

  lemma ReassessSteps(w: World, reader: nat, hit: bool, same: bool)
    requires w.pc.Idle? && w.rows != []
    ensures Run(w, Reassess(reader, hit, same) + Advances(6)) == Settled(Left(w, reader), Verdict(w, hit, same))
  {
    ReaderAlone(w, reader, Rules, Extraction(0, 0, false, []), hit, true, same, Advances(6));
    match Verdict(w, hit, same)
    case None => RestingStays(Left(w, reader), 6);
    case Some(j) => SettledByRun(Left(w, reader), j);
  }

  /** The text a rebuild leaves can be judged, and it is not the failure of a reading. */
  predicate Readable(w: World, extracted: Extraction) {
    if w.content.Some? then true
    else !PurgeOnRecord(w.trail) && !extracted.degraded && (extracted.pageCount == 0 || extracted.lines != [])
  }

  /** What a forgotten mark leads to. After a rebuild, the next rules-mode reassessment clears the
      document if and only if it finds no hit and text survived the loss, or a fresh extraction was
      clean and may be stored. Cleared or not, its file stays in quarantine. */
  lemma ForgottenMarkClears(w: World, extracted: Extraction, reader: nat, hit: bool, same: bool)
    requires HeldBack(w) && Contained(w) && w.pc.Idle? && w.pending.None? && w.rows == [] && w.pdfs != {}
    ensures var after := Run(w, Reindex(reader, extracted) + (Reassess(reader, hit, same) + Advances(6)));
            && after.rows != [] && after.pdfs == w.pdfs
            && (Latest(after).disposition.Archive? <==> !hit && Readable(w, extracted))
            && (Latest(after).disposition.Archive? ==> Latest(after).releasePending)
  {
    OnlyInQuarantine(w.pdfs);
    RebuildAlone(w, reader, extracted, Reassess(reader, hit, same) + Advances(6));
    var w1 := Reindexed(w, reader, extracted);
    ReassessSteps(w1, reader, hit, same);
    ClearedIf(w, extracted, reader, hit, same);
  }

  lemma OnlyInQuarantine(pdfs: set<Root>)
    requires pdfs != {} && ArchiveRoot !in pdfs
    ensures pdfs == {QuarantineRoot}
  {
    SomewhereOnDisk(pdfs);
    forall root | root in pdfs ensures root == QuarantineRoot {
      match root
      case ArchiveRoot => assert false;
      case QuarantineRoot =>
    }
  }

  lemma ClearedIf(w: World, extracted: Extraction, reader: nat, hit: bool, same: bool)
    requires Contained(w) && w.pc.Idle? && w.pending.None? && w.rows == [] && w.pdfs == {QuarantineRoot}
    ensures var w1 := Reindexed(w, reader, extracted);
            var after := Settled(Left(w1, reader), Verdict(w1, hit, same));
            && after.rows != [] && after.pdfs == w.pdfs
            && (Latest(after).disposition.Archive? <==> !hit && Readable(w, extracted))
            && (Latest(after).disposition.Archive? ==> Latest(after).releasePending)
  {
    var w1 := Reindexed(w, reader, extracted);
    assert w1.rows == [RebuiltRow(w.content, QuarantineRoot, extracted)];
  }

  /** Such a run: the index of a degraded, quarantined document is lost and rebuilt from its
      text, and it is waiting to be released. */
  lemma ReindexForgetsDegraded(text: Extraction, reason: Reason)
    requires text.degraded
    ensures var start := Ingested(text, Quarantine, reason, 0);
            var after := Run(start, [LoseIndex] + (Reindex(0, text) + (Reassess(0, false, false) + Advances(6))));
            && Condemned(Latest(start))
            && after.rows != [] && Latest(after).releasePending && after.pdfs == {QuarantineRoot}
  {
    var start := Ingested(text, Quarantine, reason, 0);
    var lost := Next(start, LoseIndex);
    RunOne(start, LoseIndex, Reindex(0, text) + (Reassess(0, false, false) + Advances(6)));
    ForgottenMarkClears(lost, text, 0, false, false);
  }
}
