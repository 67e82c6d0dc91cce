/**
 Runs that show what the conditions of `Containment` and `Recovery` keep out.
 */
module Mishaps {
  import opened Wrappers
  import opened Disposition
  import opened Reassessment
  import opened Containment
  import opened Recovery

  function Text(pages: nat): Extraction {
    Extraction(pages, 0, false, ["line"])
  }

  /** An extraction that finds nothing, but is judged under new rules. */
  function Extracting(reader: nat): seq<Action> {
    Reader(reader, Extract, Text(2), false, false, false)
  }

  lemma ExtractingRecords(w: World, reader: nat, rest: seq<Action>)
    requires w.pc.Idle? && w.rows != [] && Latest(w).path in w.pdfs && Latest(w).disposition.Archive?
    ensures var j := Judgement(Latest(w), Archive, false, Some(["line"]), 2, false);
            && WriteOf(w, j).Some?
            && Run(w, Extracting(reader) + rest) ==
               Run(Left(w, reader).(pending := WriteOf(w, j), pc := Applying(Copy, false)), rest)
  {
    ReaderAlone(w, reader, Extract, Text(2), false, false, false, rest);
    var j := Judgement(Latest(w), Archive, false, Some(["line"]), 2, false);
    assert WriteOf(Left(w, reader), j) == WriteOf(w, j);
  }

  // ----- an index lost and rebuilt

  const FRESH: Row := Row(1, None, Archive, false, ArchiveRoot, 1, false, NoReason)
  const SECOND: Row := Row(2, Some(1), Archive, false, ArchiveRoot, 2, false, NoReason)
  const REBUILT: Row := Row(1, None, Archive, false, ArchiveRoot, 0, false, NoReason)

  const PENDING: Transition := Transition(ArchiveRoot, SECOND, Some(["line"]), Reassessed, 0)

  function Settled(rows: seq<Row>, trail: seq<Event>): World {
    World(rows, {ArchiveRoot}, Some(["line"]), trail, None, map[], 0, Idle)
  }

  /** The second assessment of a history, left alone or recovered. */
  lemma SecondFinishes(first: Row, trail: seq<Event>, recovering: bool)
    requires first.seqNo == 1
    ensures Run(Settled([first], trail).(pending := Some(PENDING), pc := Applying(Copy, recovering)), Advances(6)) ==
            Settled([first, SECOND], if recovering && FoundSince(trail, PENDING) then trail else trail + [Transitioned(Reassessed, 2, 0)])
  {
    var w := Settled([first], trail).(pending := Some(PENDING), pc := Applying(Copy, recovering));
    StraightIsStepwise(w, recovering);
    assert [first] + [SECOND] == [first, SECOND];
  }

  lemma SecondBegins(first: Row, trail: seq<Event>, rest: seq<Action>)
    requires first.seqNo == 1 && first.disposition.Archive? && first.path.ArchiveRoot? && !first.releasePending
    ensures Run(Settled([first], trail), Extracting(0) + rest) ==
            Run(Settled([first], trail).(pending := Some(PENDING), pc := Applying(Copy, false)), rest)
  {
    var w := Settled([first], trail);
    ExtractingRecords(w, 0, rest);
    assert Left(w, 0) == w;
  }

  function Rebuilding(): seq<Action> {
    Extracting(0) + (Advances(6) + ([LoseIndex] + Reindex(0, Text(2))))
  }

  lemma LosesIndex(w: World)
    requires w == Settled([FRESH, SECOND], [Transitioned(Reassessed, 2, 0)])
    ensures Run(w, [LoseIndex] + Reindex(0, Text(2))) == Settled([REBUILT], w.trail)
  {
    var lost := Next(w, LoseIndex);
    RunOne(w, LoseIndex, Reindex(0, Text(2)));
    RebuildAlone(lost, 0, Text(2), []);
    assert Reindex(0, Text(2)) + [] == Reindex(0, Text(2));
  }

  lemma IndexRebuilt()
    ensures Run(Ingested(Text(1), Archive, NoReason, 0), Rebuilding()) == Settled([REBUILT], [Transitioned(Reassessed, 2, 0)])
  {
    var begun := Settled([FRESH], []).(pending := Some(PENDING), pc := Applying(Copy, false));
    var rest := [LoseIndex] + Reindex(0, Text(2));
    SecondBegins(FRESH, [], Advances(6) + rest);
    RunConcat(begun, Advances(6), rest);
    SecondFinishes(FRESH, [], false);
    assert [] + [Transitioned(Reassessed, 2, 0)] == [Transitioned(Reassessed, 2, 0)];
    LosesIndex(Run(begun, Advances(6)));
  }

  /** A rebuilt history starts again at 1, and its second assessment gets the number of one that
      is in the trail already: two events for one number. */
  lemma LostIndexRepeatsTheNumber() returns (w: World)
    ensures w == Run(Ingested(Text(1), Archive, NoReason, 0), Rebuilding() + (Extracting(0) + Advances(6)))
    ensures w.pending.None? && w.rows == [REBUILT, SECOND] && CountSeq(w.trail, 2) == 2
  {
    var e := Transitioned(Reassessed, 2, 0);
    IndexRebuilt();
    RunConcat(Ingested(Text(1), Archive, NoReason, 0), Rebuilding(), Extracting(0) + Advances(6));
    SecondBegins(REBUILT, [e], Advances(6));
    SecondFinishes(REBUILT, [e], false);
    w := Settled([REBUILT, SECOND], [e] + [e]);
    SeqSnoc([], e, 2);
    SeqSnoc([e], e, 2);
    assert [] + [e] == [e];
  }

  lemma DiesAtOnce(w: World, rest: seq<Action>)
    requires w.pc == Applying(Copy, false) && w.pending.Some?
    ensures Run(w, [Crash] + ([Recover] + rest)) == Run(w.(pc := Applying(Copy, true)), rest)
  {
    var dead := Next(w, Crash);
    RunOne(w, Crash, [Recover] + rest);
    RunOne(dead, Recover, rest);
    assert Next(dead, Recover) == w.(pc := Applying(Copy, true));
  }

  /** If that second one dies before its event, recovery takes the old event for its own and
      appends none. */
  lemma LostIndexLosesTheEvent() returns (w: World)
    ensures w == Run(Ingested(Text(1), Archive, NoReason, 0), Rebuilding() + (Extracting(0) + ([Crash] + ([Recover] + Advances(6)))))
    ensures w.pending.None? && w.rows == [REBUILT, SECOND] && w.trail == [Transitioned(Reassessed, 2, 0)]
  {
    var e := Transitioned(Reassessed, 2, 0);
    var rest := [Crash] + ([Recover] + Advances(6));
    IndexRebuilt();
    RunConcat(Ingested(Text(1), Archive, NoReason, 0), Rebuilding(), Extracting(0) + rest);
    SecondBegins(REBUILT, [e], rest);
    DiesAtOnce(Settled([REBUILT], [e]).(pending := Some(PENDING), pc := Applying(Copy, false)), Advances(6));
    SecondFinishes(REBUILT, [e], true);
    assert Matches([e][0], PENDING);
    w := Settled([REBUILT, SECOND], [e]);
  }

  // ----- a purge on a later day

  /** An extract-mode reassessment dies after its event and before its file is removed; a purge
      the next day rewrites that file. */
  function LatePurge(): seq<Action> {
    Extracting(0) + (Advances(4) + [Crash, NextDay(1)])
  }

  lemma FourSteps(w: World)
    requires w == Settled([FRESH], []).(pending := Some(PENDING), pc := Applying(Copy, false))
    ensures Run(w, Advances(4)) ==
            Settled([FRESH, SECOND], [Transitioned(Reassessed, 2, 0)]).(pending := Some(PENDING), pc := Applying(Drop, false))
  {
    var w1 := Advanced(w);
    var w2 := Advanced(w1);
    var w3 := Advanced(w2);
    RunAdvances(w, 4);
    RunAdvances(w1, 3);
    RunAdvances(w2, 2);
    RunAdvances(w3, 1);
    assert w3.rows == [FRESH, SECOND];
  }

  lemma DiesOvernight(w: World)
    requires w.today == 0
    ensures Run(w, [Crash, NextDay(1)]) == w.(pc := Idle, today := 1)
  {
    assert [Crash, NextDay(1)] == [Crash] + ([NextDay(1)] + []);
    RunOne(w, Crash, [NextDay(1)] + []);
    RunOne(Next(w, Crash), NextDay(1), []);
  }

  lemma DiesAfterItsEvent()
    ensures Run(Ingested(Text(1), Archive, NoReason, 0), LatePurge()) ==
            Settled([FRESH, SECOND], [Transitioned(Reassessed, 2, 0)]).(pending := Some(PENDING), today := 1)
  {
    var w0 := Settled([FRESH], []).(pending := Some(PENDING), pc := Applying(Copy, false));
    SecondBegins(FRESH, [], Advances(4) + [Crash, NextDay(1)]);
    RunConcat(w0, Advances(4), [Crash, NextDay(1)]);
    FourSteps(w0);
    DiesOvernight(Run(w0, Advances(4)));
    assert Ingested(Text(1), Archive, NoReason, 0) == Settled([FRESH], []);
  }

  lemma RecoveredLate(w: World)
    requires w == World([FRESH, SECOND], {ArchiveRoot}, None, [Transitioned(Reassessed, 2, 0), PurgeStarted, ContentPurged],
                        Some(PENDING.(text := None, day := 1)), map[], 1, Idle)
    ensures Run(w, [Recover] + Advances(6)) == w.(pending := None, trail := w.trail + [Transitioned(Reassessed, 2, 1)])
  {
    RunOne(w, Recover, Advances(6));
    StraightIsStepwise(Next(w, Recover), true);
    assert !FoundSince(w.trail, w.pending.value);
  }

  /** Recovery then no longer finds the event and appends it a second time. */
  lemma LatePurgeRepeatsTheEvent() returns (w: World)
    ensures w == Run(Run(Ingested(Text(1), Archive, NoReason, 0), LatePurge() + ([Purge(false)] + Advances(3))), [Recover] + Advances(6))
    ensures w.pending.None?
    ensures w.trail == [Transitioned(Reassessed, 2, 0), PurgeStarted, ContentPurged, Transitioned(Reassessed, 2, 1)]
  {
    DiesAfterItsEvent();
    var died := Run(Ingested(Text(1), Archive, NoReason, 0), LatePurge());
    RunConcat(Ingested(Text(1), Archive, NoReason, 0), LatePurge(), [Purge(false)] + Advances(3));
    SoftPurge(died);
    var purged := Run(died, [Purge(false)] + Advances(3));
    assert purged.trail == [Transitioned(Reassessed, 2, 0), PurgeStarted, ContentPurged];
    RecoveredLate(purged);
    w := Run(purged, [Recover] + Advances(6));
  }

  // ----- a transition overwritten

  /** An escalation dies after it moved the file, and a second caller, who finds the archived row,
      writes its own assessment over the pending one. */
  function Overwriting(): seq<Action> {
    Reader(0, Rules, Text(1), true, true, false) + (Advances(2) + ([Crash] + (Reader(1, Rules, Text(1), false, true, false) + Advances(6))))
  }

  lemma EscalationDies(rest: seq<Action>) returns (w: World)
    ensures Run(Ingested(Text(1), Archive, NoReason, 0), Reader(0, Rules, Text(1), true, true, false) + (Advances(2) + ([Crash] + rest))) == Run(w, rest)
    ensures w.pending.Some? && w.pdfs == {QuarantineRoot} && w.pc.Idle? && w.content == Some(["line"]) && w.rows == [FRESH]
  {
    var start := Ingested(Text(1), Archive, NoReason, 0);
    var tail := [Crash] + rest;
    ReaderAlone(start, 0, Rules, Text(1), true, true, false, Advances(2) + tail);
    var j := Judge(start.content, start.pdfs, FRESH, Rules, Text(1), true, true, false).value;
    var w0 := Written(Left(start, 0), j);
    RunConcat(w0, Advances(2), tail);
    var w1 := Advanced(w0);
    var w2 := Advanced(w1);
    RunAdvances(w0, 2);
    RunAdvances(w1, 1);
    RunOne(w2, Crash, rest);
    w := Next(w2, Crash);
    assert w2.pdfs == {QuarantineRoot};
  }

  /** The file then lies in quarantine under a row that names the archive. */
  lemma OverwritingStrandsTheFile() returns (w: World)
    ensures w == Run(Ingested(Text(1), Archive, NoReason, 0), Overwriting())
    ensures w.pending.None? && w.rows != [] && w.pdfs == {QuarantineRoot} && !InPlace(w)
  {
    var rest := Reader(1, Rules, Text(1), false, true, false) + Advances(6);
    var died := EscalationDies(rest);
    ReaderAlone(died, 1, Rules, Text(1), false, true, false, Advances(6));
    var j := Judge(died.content, died.pdfs, FRESH, Rules, Text(1), false, true, false).value;
    assert j.to.Archive? && Towards(j).Changed?;
    var begun := Written(Left(died, 1), j);
    StraightIsStepwise(begun, false);
    w := Finished(begun, false);
    assert w.rows == [FRESH] + [begun.pending.value.row] && Latest(w).path.ArchiveRoot?;
  }
}
