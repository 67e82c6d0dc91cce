/**
 Reassessment, release, purge, crash recovery and reindex of one job, one durable write at a
 time. A transition is recorded before it is carried out; whatever a crash leaves is finished
 by a later recovery. Writers hold the store lock one at a time. Evaluation does not: any number
 of readers look up the current row, judge it later against the stored or a freshly extracted
 text, and come back later still to write. A rebuild of the index holds no lock at all.
 */
module Reassessment {
  import opened Wrappers
  import opened Disposition

  datatype Root = ArchiveRoot | QuarantineRoot

  datatype Row = Row(
    seqNo: nat,
    supersedes: Option<nat>,
    disposition: Disposition,
    releasePending: bool,
    path: Root,
    pageCount: nat,
    degraded: bool,
    reason: Reason)

  datatype Kind = Reassessed | Released

  datatype Event = Transitioned(kind: Kind, toSeq: nat, day: int) | PurgeStarted | ContentPurged

  // The write-ahead file; `day` is its modification date.
  datatype Transition = Transition(prior: Root, row: Row, text: Option<seq<string>>, kind: Kind, day: int)

  // What an evaluation came to, held outside the lock until it is written. `text` is what an
  // extraction found.
  datatype Judgement = Judgement(
    row: Row,
    to: Disposition,
    same: bool,
    text: Option<seq<string>>,
    pageCount: nat,
    degraded: bool)

  datatype Mode = Rules | Extract

  // How far a reader got: a batch that was asked for looks up its rows before it judges them; a
  // rebuild surveys the files, and what was purged, before it reads and restores.
  datatype Reading =
    | Looked(row: Row, mode: Mode)
    | Judged(judgement: Judgement)
    | Surveyed(place: Root, purged: bool)
    | Rebuilt(row: Row, text: Option<seq<string>>)

  datatype Stage = Copy | Unlink | Refresh | WriteRow | Audit | Drop

  datatype Pc =
    | Idle
    | Applying(stage: Stage, recovering: bool)
    | PurgeContent(hard: bool)
    | PurgeText(hard: bool)
    | PurgeArchive
    | PurgeQuarantine
    | PurgeDone

  // `rows` are the job's assessments by rising sequence number; the last one is current. `pc` is
  // where the holder of the lock is.
  datatype World = World(
    rows: seq<Row>,
    pdfs: set<Root>,
    content: Option<seq<string>>,
    trail: seq<Event>,
    pending: Option<Transition>,
    readers: map<nat, Reading>,
    today: int,
    pc: Pc)

  // `Look`, `Evaluate` and `Write` are one job of a reassessment, by one of its callers; `Survey`,
  // `Rebuild` and `Write` one job of a reindex. `extracted` is what an extraction would find;
  // `sameVerdict` says whether the hits, the rules and the pages read by OCR are as recorded.
  datatype Action =
    | NextDay(day: int)
    | Look(reader: nat, mode: Mode)
    | Evaluate(reader: nat, extracted: Extraction, quarantineHit: bool, quarantineOnDegraded: bool, sameVerdict: bool)
    | Survey(reader: nat)
    | Rebuild(reader: nat, extracted: Extraction)
    | Write(reader: nat)
    | Release
    | Purge(hard: bool)
    | Recover
    | Advance
    | Crash
    | LoseIndex

  predicate Purging(pc: Pc) {
    pc.PurgeContent? || pc.PurgeText? || pc.PurgeArchive? || pc.PurgeQuarantine? || pc.PurgeDone?
  }

  function Home(d: Disposition): Root {
    if d.Quarantine? then QuarantineRoot else ArchiveRoot
  }

  /** A job as ingest leaves it. */
  function Ingested(text: Extraction, disposition: Disposition, reason: Reason, today: int): World {
    World([Row(1, None, disposition, false, Home(disposition), text.pageCount, text.degraded, reason)],
          {Home(disposition)}, Some(text.lines), [], None, map[], today, Idle)
  }

  function Latest(w: World): Row
    requires w.rows != []
  {
    w.rows[|w.rows| - 1]
  }

  // ----- judging, outside the lock

  datatype Direction = Escalate | Deescalate | Changed | Unchanged

  /** The text a reassessment judges. `Rules` mode reads stored lines and carries the recorded
      extraction quality forward; it cannot make a degraded document clean. */
  function TextOf(content: Option<seq<string>>, pdfs: set<Root>, row: Row, mode: Mode, extracted: Extraction): Option<Extraction> {
    match mode
    case Rules =>
      if content.None? then None
      else Some(Extraction(row.pageCount, if row.reason.DegradedExtraction? then 1 else 0, row.degraded, content.value))
    case Extract => if row.path in pdfs then Some(extracted) else None
  }

  function DirectionOf(from: Disposition, to: Disposition, same: bool): Direction {
    if from == to then (if same then Unchanged else Changed)
    else if to.Quarantine? then Escalate
    else Deescalate
  }

  function Towards(j: Judgement): Direction {
    DirectionOf(j.row.disposition, j.to, j.same)
  }

  /** Nothing changed only if a fresh extraction came out as the recorded one did. */
  predicate SameText(row: Row, mode: Mode, text: Extraction) {
    mode.Extract? ==> row.pageCount == text.pageCount && row.degraded == text.degraded
  }

  /** `_evaluate`: nothing comes of a document whose text cannot be had. */
  function Judge(content: Option<seq<string>>, pdfs: set<Root>, row: Row, mode: Mode, extracted: Extraction,
                 quarantineHit: bool, quarantineOnDegraded: bool, sameVerdict: bool): Option<Judgement> {
    match TextOf(content, pdfs, row, mode, extracted)
    case None => None
    case Some(text) =>
      Some(Judgement(row, Decide(text, quarantineHit, quarantineOnDegraded).0, sameVerdict && SameText(row, mode, text),
                     if mode.Extract? then Some(text.lines) else None, text.pageCount, text.degraded))
  }

  // ----- writing, under the lock

  /** Where a move into `into` leaves the file: a crash may have moved it there already. */
  function DestinationPath(pdfs: set<Root>, current: Root, into: Root): Root {
    if current in pdfs || into in pdfs then into else current
  }

  function NewRow(pdfs: set<Root>, j: Judgement): Row {
    var direction := Towards(j);
    Row(j.row.seqNo + 1,
        Some(j.row.seqNo),
        j.to,
        j.to.Archive? && (direction.Deescalate? || j.row.releasePending),
        if direction.Escalate? then DestinationPath(pdfs, j.row.path, QuarantineRoot) else j.row.path,
        j.pageCount,
        j.degraded,
        NoReason)
  }

  /** `_write_assessment`: refused when the current row is no longer the one that was judged. */
  function WriteOf(w: World, j: Judgement): Option<Transition> {
    if w.rows != [] && Latest(w).seqNo != j.row.seqNo then None
    else Some(Transition(j.row.path, NewRow(w.pdfs, j), j.text, Reassessed, w.today))
  }

  function ReleasedRow(pdfs: set<Root>, row: Row): Row {
    row.(seqNo := row.seqNo + 1, supersedes := Some(row.seqNo), releasePending := false,
         path := DestinationPath(pdfs, row.path, ArchiveRoot), reason := NoReason)
  }

  function ReleaseOf(w: World): Option<Transition> {
    if w.rows == [] || !Latest(w).releasePending then None
    else if Latest(w).path !in w.pdfs && ArchiveRoot !in w.pdfs then None
    else Some(Transition(Latest(w).path, ReleasedRow(w.pdfs, Latest(w)), None, Released, w.today))
  }

  /** `_commit_transition`: the file is written first, over whatever was there. */
  function Recorded(w: World, t: Option<Transition>): World {
    if t.None? then w else w.(pending := t, pc := Applying(Copy, false))
  }

  /** What a judgement comes to: new text without the lock when the verdict stays, else a
      transition. */
  function Written(w: World, j: Judgement): World {
    if Towards(j).Unchanged? then (if j.text.Some? then w.(content := j.text) else w)
    else Recorded(w, WriteOf(w, j))
  }

  // ----- carrying out

  function Matches(e: Event, t: Transition): bool {
    e.Transitioned? && e.kind == t.kind && e.toSeq == t.row.seqNo
  }

  /** The event is looked for only in partitions from the transition file's own date on. */
  predicate FoundSince(trail: seq<Event>, t: Transition) {
    exists i :: 0 <= i < |trail| && Matches(trail[i], t) && trail[i].day >= t.day
  }

  function Applied(w: World, stage: Stage, recovering: bool): World
    requires w.pending.Some?
  {
    var t := w.pending.value;
    match stage
    case Copy =>
      if t.prior != t.row.path && t.prior in w.pdfs
      then w.(pdfs := w.pdfs + {t.row.path}, pc := Applying(Unlink, recovering))
      else w.(pc := Applying(Refresh, recovering))
    case Unlink => w.(pdfs := w.pdfs - {t.prior}, pc := Applying(Refresh, recovering))
    case Refresh =>
      w.(content := if t.text.Some? then t.text else w.content, pc := Applying(WriteRow, recovering))
    case WriteRow =>
      w.(rows := if w.rows == [] || Latest(w).seqNo < t.row.seqNo then w.rows + [t.row] else w.rows,
         pc := Applying(Audit, recovering))
    case Audit =>
      w.(trail := if recovering && FoundSince(w.trail, t) then w.trail
                  else w.trail + [Transitioned(t.kind, t.row.seqNo, w.today)],
         pc := Applying(Drop, recovering))
    case Drop => w.(pending := None, pc := Idle)
  }

  /** Purging also takes the text out of a transition that is still pending; rewriting its file
      gives it today's date. */
  function TextDropped(w: World): World {
    if w.pending.Some? && w.pending.value.text.Some?
    then w.(pending := Some(w.pending.value.(text := None, day := w.today)))
    else w
  }

  function Advanced(w: World): World {
    match w.pc
    case Idle => w
    case Applying(stage, recovering) => if w.pending.Some? then Applied(w, stage, recovering) else w.(pc := Idle)
    case PurgeContent(hard) => w.(content := None, pc := PurgeText(hard))
    case PurgeText(hard) => TextDropped(w).(pc := if hard then PurgeArchive else PurgeDone)
    case PurgeArchive => w.(pdfs := w.pdfs - {ArchiveRoot}, pc := PurgeQuarantine)
    case PurgeQuarantine => w.(pdfs := w.pdfs - {QuarantineRoot}, pc := PurgeDone)
    case PurgeDone => w.(trail := w.trail + [ContentPurged], pc := Idle)
  }

  // ----- rebuilding the index

  /** A rebuilt row says what the file's place says. Whether the extraction was degraded is not
      known from stored text. */
  function RebuiltRow(content: Option<seq<string>>, place: Root, extracted: Extraction): Row {
    Row(1, None, if place.QuarantineRoot? then Quarantine else Archive, false, place,
        if content.Some? then 0 else extracted.pageCount, content.None? && extracted.degraded, NoReason)
  }

  /** The file of the first assessment is written over one that is there. */
  function WithFirst(rows: seq<Row>, row: Row): seq<Row> {
    [row] + if rows != [] && rows[0].seqNo <= 1 then rows[1..] else rows
  }

  predicate PurgeOnRecord(trail: seq<Event>) {
    PurgeStarted in trail || ContentPurged in trail
  }

  /** What is missing from the index and still on disk, and whether its erasure is on record. */
  function Surveying(w: World, reader: nat): World {
    if w.rows != [] || w.pdfs == {} then w
    else
      var place := if QuarantineRoot in w.pdfs then QuarantineRoot else ArchiveRoot;
      w.(readers := w.readers[reader := Surveyed(place, PurgeOnRecord(w.trail))])
  }

  /** Text that survived is used and left where it is; else the file is read again, and its text
      is to be stored unless it had been erased. */
  function Rebuilding(w: World, reader: nat, extracted: Extraction): World {
    if reader !in w.readers || !w.readers[reader].Surveyed? then w
    else
      var place := w.readers[reader].place;
      if place !in w.pdfs then Left(w, reader)
      else
        var text := if w.content.Some? || w.readers[reader].purged then None else Some(extracted.lines);
        w.(readers := w.readers[reader := Rebuilt(RebuiltRow(w.content, place, extracted), text)])
  }

  function Restored(w: World, row: Row, text: Option<seq<string>>): World {
    w.(rows := WithFirst(w.rows, row), content := if text.Some? then text else w.content)
  }

  // ----- readers

  function Looking(w: World, reader: nat, mode: Mode): World {
    if w.rows == [] then w else w.(readers := w.readers[reader := Looked(Latest(w), mode)])
  }

  function Left(w: World, reader: nat): World {
    w.(readers := w.readers - {reader})
  }

  function Evaluating(w: World, a: Action): World
    requires a.Evaluate?
  {
    if a.reader !in w.readers || !w.readers[a.reader].Looked? then w
    else
      var look := w.readers[a.reader];
      match Judge(w.content, w.pdfs, look.row, look.mode, a.extracted, a.quarantineHit, a.quarantineOnDegraded, a.sameVerdict)
      case None => Left(w, a.reader)
      case Some(j) => w.(readers := w.readers[a.reader := Judged(j)])
  }

  predicate HasJudged(w: World, reader: nat) {
    reader in w.readers && w.readers[reader].Judged?
  }

  function Writing(w: World, reader: nat): World {
    if reader in w.readers && w.readers[reader].Rebuilt? then
      Restored(Left(w, reader), w.readers[reader].row, w.readers[reader].text)
    else if !HasJudged(w, reader) then w
    else
      var j := w.readers[reader].judgement;
      if !Towards(j).Unchanged? && !w.pc.Idle? then w else Written(Left(w, reader), j)
  }

  function Next(w: World, a: Action): World {
    match a
    case NextDay(day) => if day > w.today then w.(today := day) else w
    case Crash => w.(pc := Idle)
    case Advance => Advanced(w)
    case Recover => if w.pc.Idle? && w.pending.Some? then w.(pc := Applying(Copy, true)) else w
    case Look(reader, mode) => Looking(w, reader, mode)
    case Evaluate(_, _, _, _, _) => Evaluating(w, a)
    case Survey(reader) => Surveying(w, reader)
    case Rebuild(reader, extracted) => Rebuilding(w, reader, extracted)
    case Write(reader) => Writing(w, reader)
    case Release => if w.pc.Idle? then Recorded(w, ReleaseOf(w)) else w
    case Purge(hard) => if w.pc.Idle? then w.(trail := w.trail + [PurgeStarted], pc := PurgeContent(hard)) else w
    case LoseIndex => if w.pc.Idle? then w.(rows := []) else w
  }

  function Run(w: World, actions: seq<Action>): World
    decreases |actions|
  {
    if actions == [] then w else Run(Next(w, actions[0]), actions[1..])
  }

  /** The transition that an action records, if it records one. */
  function Started(w: World, a: Action): Option<Transition> {
    match a
    case Write(reader) =>
      if HasJudged(w, reader) && !Towards(w.readers[reader].judgement).Unchanged? && w.pc.Idle?
      then WriteOf(w, w.readers[reader].judgement)
      else None
    case Release => if w.pc.Idle? then ReleaseOf(w) else None
    case _ => None
  }

  // ----- runs

  function Advances(k: nat): seq<Action> {
    if k == 0 then [] else [Action.Advance] + Advances(k - 1)
  }

  lemma RunAdvances(w: World, k: nat)
    requires k > 0
    ensures Run(w, Advances(k)) == Run(Advanced(w), Advances(k - 1))
  {
    assert Advances(k)[1..] == Advances(k - 1);
  }

  lemma RunOne(w: World, a: Action, rest: seq<Action>)
    ensures Run(w, [a] + rest) == Run(Next(w, a), rest)
  {
    assert ([a] + rest)[1..] == rest;
  }

  lemma RunTwo(w: World, a: Action, b: Action, rest: seq<Action>)
    ensures Run(w, [a, b] + rest) == Run(Next(Next(w, a), b), rest)
  {
    assert [a, b] + rest == [a] + ([b] + rest);
    RunOne(w, a, [b] + rest);
    RunOne(Next(w, a), b, rest);
  }

  lemma RunThree(w: World, a: Action, b: Action, c: Action, rest: seq<Action>)
    ensures Run(w, [a, b, c] + rest) == Run(Next(Next(Next(w, a), b), c), rest)
  {
    assert [a, b, c] + rest == [a] + ([b] + ([c] + rest));
    RunOne(w, a, [b] + ([c] + rest));
    RunOne(Next(w, a), b, [c] + rest);
    RunOne(Next(Next(w, a), b), c, rest);
  }

  lemma {:induction false} RunConcat(w: World, a: seq<Action>, b: seq<Action>)
    ensures Run(w, a + b) == Run(Run(w, a), b)
    decreases |a|
  {
    if a == [] {
      assert a + b == b;
    } else {
      assert (a + b)[0] == a[0] && (a + b)[1..] == a[1..] + b;
      RunConcat(Next(w, a[0]), a[1..], b);
    }
  }

  lemma {:induction false} RestingStays(w: World, k: nat)
    requires w.pc.Idle?
    ensures Run(w, Advances(k)) == w
  {
    if k > 0 {
      RunAdvances(w, k);
      RestingStays(w, k - 1);
    }
  }

  // ----- a transition left alone

  function Filed(w: World, recovering: bool): World
    requires w.pending.Some?
  {
    var t := w.pending.value;
    w.(pdfs := if t.prior != t.row.path && t.prior in w.pdfs then w.pdfs + {t.row.path} - {t.prior} else w.pdfs,
       content := if t.text.Some? then t.text else w.content,
       pc := Applying(WriteRow, recovering))
  }

  function Noted(w: World, recovering: bool): World
    requires w.pending.Some?
  {
    var t := w.pending.value;
    w.(rows := if w.rows == [] || Latest(w).seqNo < t.row.seqNo then w.rows + [t.row] else w.rows,
       trail := if recovering && FoundSince(w.trail, t) then w.trail
                else w.trail + [Transitioned(t.kind, t.row.seqNo, w.today)],
       pc := Applying(Drop, recovering))
  }

  function Finished(w: World, recovering: bool): World
    requires w.pending.Some?
  {
    Noted(Filed(w, recovering), recovering).(pending := None, pc := Idle)
  }

  lemma FilesStepwise(w: World, recovering: bool) returns (k: nat)
    requires w.pending.Some? && w.pc == Applying(Copy, recovering)
    ensures 3 <= k <= 4 && Run(w, Advances(6)) == Run(Filed(w, recovering), Advances(k))
  {
    var w1 := Advanced(w);
    RunAdvances(w, 6);
    RunAdvances(w1, 5);
    var w2 := Advanced(w1);
    k := 4;
    if w1.pc.stage.Unlink? {
      RunAdvances(w2, 4);
      k := 3;
    }
  }

  lemma RecordsStepwise(w: World, recovering: bool, k: nat)
    requires w.pending.Some? && w.pc == Applying(WriteRow, recovering) && 3 <= k <= 4
    ensures Run(w, Advances(k)) == Noted(w, recovering).(pending := None, pc := Idle)
  {
    var w1 := Advanced(w);
    var w2 := Advanced(w1);
    var w3 := Advanced(w2);
    RunAdvances(w, k);
    RunAdvances(w1, k - 1);
    RunAdvances(w2, k - 2);
    RestingStays(w3, k - 3);
    assert w2 == Noted(w, recovering);
  }

  /** Six steps carry a transition out, and this is what they come to. */
  lemma StraightIsStepwise(w: World, recovering: bool)
    requires w.pending.Some? && w.pc == Applying(Copy, recovering)
    ensures Run(w, Advances(6)) == Finished(w, recovering)
  {
    var k := FilesStepwise(w, recovering);
    RecordsStepwise(Filed(w, recovering), recovering, k);
  }

  /** What is started and left alone. */
  lemma StartedFinishes(w: World, a: Action)
    requires Started(w, a).Some?
    ensures Run(w, [a] + Advances(6)) ==
            Finished((if a.Write? then Left(w, a.reader) else w).(pending := Started(w, a), pc := Applying(Copy, false)), false)
  {
    RunOne(w, a, Advances(6));
    StraightIsStepwise(Next(w, a), false);
  }

  // ----- one reader, left alone

  function Reader(reader: nat, mode: Mode, extracted: Extraction, quarantineHit: bool, quarantineOnDegraded: bool, sameVerdict: bool): seq<Action> {
    [Look(reader, mode), Evaluate(reader, extracted, quarantineHit, quarantineOnDegraded, sameVerdict), Write(reader)]
  }

  lemma LooksAndJudges(w: World, reader: nat, mode: Mode, a: Action) returns (w': World)
    requires w.rows != [] && a.Evaluate? && a.reader == reader
    ensures w' == Next(Next(w, Look(reader, mode)), a)
    ensures match Judge(w.content, w.pdfs, Latest(w), mode, a.extracted, a.quarantineHit, a.quarantineOnDegraded, a.sameVerdict)
            case None => w' == Left(w, reader)
            case Some(j) => w' == w.(readers := w.readers[reader := Judged(j)])
  {
    var w1 := Next(w, Look(reader, mode));
    assert w1.readers[reader] == Looked(Latest(w), mode);
    w' := Next(w1, a);
    assert w.readers[reader := Looked(Latest(w), mode)] - {reader} == w.readers - {reader};
  }

  lemma WritesJudged(w: World, reader: nat, j: Judgement)
    requires w.pc.Idle?
    ensures Next(w.(readers := w.readers[reader := Judged(j)]), Write(reader)) == Written(Left(w, reader), j)
  {
    assert w.readers[reader := Judged(j)] - {reader} == w.readers - {reader};
  }

  lemma ReaderAlone(w: World, reader: nat, mode: Mode, extracted: Extraction, quarantineHit: bool, quarantineOnDegraded: bool, sameVerdict: bool, rest: seq<Action>)
    requires w.pc.Idle? && w.rows != []
    ensures Run(w, Reader(reader, mode, extracted, quarantineHit, quarantineOnDegraded, sameVerdict) + rest) ==
            match Judge(w.content, w.pdfs, Latest(w), mode, extracted, quarantineHit, quarantineOnDegraded, sameVerdict)
            case None => Run(Left(w, reader), rest)
            case Some(j) => Run(Written(Left(w, reader), j), rest)
  {
    var a := Evaluate(reader, extracted, quarantineHit, quarantineOnDegraded, sameVerdict);
    RunThree(w, Look(reader, mode), a, Write(reader), rest);
    var w' := LooksAndJudges(w, reader, mode, a);
    match Judge(w.content, w.pdfs, Latest(w), mode, extracted, quarantineHit, quarantineOnDegraded, sameVerdict)
    case None =>
    case Some(j) => WritesJudged(w, reader, j);
  }

  /** One rebuild. */
  function Reindex(reader: nat, extracted: Extraction): seq<Action> {
    [Survey(reader), Rebuild(reader, extracted), Write(reader)]
  }

  function Reindexed(w: World, reader: nat, extracted: Extraction): World {
    var place := if QuarantineRoot in w.pdfs then QuarantineRoot else ArchiveRoot;
    Left(w, reader).(rows := [RebuiltRow(w.content, place, extracted)],
                     content := if w.content.Some? || PurgeOnRecord(w.trail) then w.content else Some(extracted.lines))
  }

  lemma SurveysAndRebuilds(w: World, reader: nat, extracted: Extraction)
    requires w.rows == [] && (QuarantineRoot in w.pdfs || ArchiveRoot in w.pdfs)
    ensures var place := if QuarantineRoot in w.pdfs then QuarantineRoot else ArchiveRoot;
            var text := if w.content.Some? || PurgeOnRecord(w.trail) then None else Some(extracted.lines);
            Next(Next(w, Survey(reader)), Rebuild(reader, extracted)) ==
            w.(readers := w.readers[reader := Rebuilt(RebuiltRow(w.content, place, extracted), text)])
  {
    var place := if QuarantineRoot in w.pdfs then QuarantineRoot else ArchiveRoot;
    var w1 := Next(w, Survey(reader));
    assert w1.readers[reader] == Surveyed(place, PurgeOnRecord(w.trail));
  }

  lemma RebuildAlone(w: World, reader: nat, extracted: Extraction, rest: seq<Action>)
    requires w.rows == [] && (QuarantineRoot in w.pdfs || ArchiveRoot in w.pdfs)
    ensures Run(w, Reindex(reader, extracted) + rest) == Run(Reindexed(w, reader, extracted), rest)
  {
    RunThree(w, Survey(reader), Rebuild(reader, extracted), Write(reader), rest);
    SurveysAndRebuilds(w, reader, extracted);
    var w2 := Next(Next(w, Survey(reader)), Rebuild(reader, extracted));
    assert w2.readers - {reader} == w.readers - {reader};
    var row := w2.readers[reader].row;
    assert [row] + [] == [row];
  }

  lemma SoftPurge(w: World)
    requires w.pc.Idle?
    ensures Run(w, [Purge(false)] + Advances(3)) ==
            w.(trail := w.trail + [PurgeStarted] + [ContentPurged], content := None, pending := TextDropped(w).pending)
  {
    RunOne(w, Purge(false), Advances(3));
    var w0 := Next(w, Purge(false));
    RunAdvances(w0, 3);
    RunAdvances(Advanced(w0), 2);
    RunAdvances(Advanced(Advanced(w0)), 1);
    assert Advances(0) == [];
  }
}
