/**
 Claim, process, commit, recover: the durable state of one job id and every write that changes
 it, one write at a time, so that a crash may fall between any two. A job id is the digest of
 the document, so every arrival of the same bytes meets here, each under its own receipt.

 The per-job lock makes one caller at a time; `pc` is where that caller is and is all a crash
 loses.
 */
module CommitProtocol {
  import opened Wrappers

  datatype Verdict = ToArchive | ToQuarantine | Failed

  // What processing decided, as the manifest's snapshot keeps it.
  datatype Assessment = Assessment(verdict: Verdict, ruleset: string, text: string)

  // The manifest's list of step names, each recorded once.
  datatype Steps = Steps(assessed: bool, pdf: bool, auditStarted: bool, audited: bool, stored: bool, emitStarted: bool, emitted: bool)

  const NO_STEPS := Steps(false, false, false, false, false, false, false)

  datatype Manifest = Manifest(receipt: Option<nat>, day: Option<int>, steps: Steps, assessment: Option<Assessment>)

  datatype Place = Place(quarantined: bool, day: int)

  datatype Row = Row(verdict: Verdict, place: Place, ruleset: string)

  datatype Event =
    | Completed(receipt: Option<nat>, verdict: Verdict, day: int)
    | ReceivedAgain(arrival: nat)
    | ReceivedWhileProcessing(arrival: nat)
    | JobFailed

  datatype Status = Received | Duplicate | Closed(outcome: Verdict)

  datatype Context = Context(day: int, assessment: Assessment)

  // The next write of `commit`.
  datatype Stage =
    | Snapshot | CopyPdf | MarkPdf | AskAudit | AppendAudit | MarkAudit
    | WriteRow | WriteContent | MarkStores
    | StartEmit | Emit | MarkEmitted | CloseReceipt | DropFailed

  datatype Pc =
    | Idle
    | ClaimPdf
    | ClaimReceipt
    | Finishing(day: int)
    | DuplicateClose
    | DuplicateAudit
    | Processing(day: int)
    | Committing(context: Context, stage: Stage)
    | FailSnapshot(context: Context)
    | FailCopy
    | FailClose
    | Removing

  datatype World = World(
    manifest: Option<Manifest>,
    staged: Option<int>,
    pdfs: set<Place>,
    trail: seq<Event>,
    rows: map<int, Row>,
    content: map<int, string>,
    receipts: map<nat, Status>,
    failed: bool,
    emits: nat,
    confirmed: nat,
    nextReceipt: nat,
    today: int,
    pc: Pc)

  function Start(today: int): World {
    World(None, None, {}, [], map[], map[], map[], false, 0, 0, 0, today, Idle)
  }

  // `Advance` carries what the environment decides: the outcome of processing, and which file
  // of the staging directory a removal takes first.
  datatype Action =
    | NextDay(day: int)
    | Arrive
    | ArriveAgain
    | ArriveDuring
    | Finish(day: int)
    | Resume
    | ConfirmRetry
    | Advance(outcome: Assessment, manifestFirst: bool)
    | Crash

  // ----- reading the durable state

  /** The manifest as `_manifest` reads it: a missing file has no receipt and no steps. */
  function Current(w: World): Manifest {
    if w.manifest.Some? then w.manifest.value else Manifest(None, None, NO_STEPS, None)
  }

  function Count(trail: seq<Event>, receipt: Option<nat>): nat {
    if trail == [] then 0
    else Count(trail[..|trail| - 1], receipt) +
         if trail[|trail| - 1].Completed? && trail[|trail| - 1].receipt == receipt then 1 else 0
  }

  /** The completions found when only partitions from `since` on are read. */
  function CountSince(trail: seq<Event>, receipt: Option<nat>, since: Option<int>): nat {
    if trail == [] then 0
    else CountSince(trail[..|trail| - 1], receipt, since) +
         var e := trail[|trail| - 1];
         if e.Completed? && e.receipt == receipt && (since.Some? ==> e.day >= since.value) then 1 else 0
  }

  predicate AlreadyAudited(w: World) {
    var m := Current(w);
    m.receipt.Some? && m.steps.auditStarted && CountSince(w.trail, m.receipt, m.day) > 0
  }

  predicate Uncertain(m: Manifest) {
    m.steps.emitStarted && !m.steps.emitted
  }

  /** The day a resumed job is filed under: its receipt's, or that of the staged file. */
  function DayOf(w: World): Option<int> {
    if Current(w).day.Some? then Current(w).day else w.staged
  }

  function PlaceOf(context: Context): Place {
    Place(context.assessment.verdict.ToQuarantine?, context.day)
  }

  // ----- single writes

  function Marked(w: World, steps: Steps): World {
    w.(manifest := Some(Current(w).(steps := steps)))
  }

  function Snapped(w: World, assessment: Assessment): World {
    if Current(w).assessment.Some? then w
    else w.(manifest := Some(Current(w).(steps := Current(w).steps.(assessed := true), assessment := Some(assessment))))
  }

  /** `finish_receipt` rewrites a receipt that exists and is silent about one that does not. */
  function ReceiptClosed(w: World, status: Status): World {
    match Current(w).receipt
    case Some(r) => if r in w.receipts then w.(receipts := w.receipts[r := status]) else w
    case None => w
  }

  function To(w: World, context: Context, stage: Stage): World {
    w.(pc := Committing(context, stage))
  }

  function RowOf(w: World, context: Context): Row {
    var m := Current(w);
    var ruleset := if m.assessment.Some? then m.assessment.value.ruleset else context.assessment.ruleset;
    Row(context.assessment.verdict, PlaceOf(context), ruleset)
  }

  /** What one stage of `commit` writes. */
  function Written(w: World, context: Context, stage: Stage): World {
    var steps := Current(w).steps;
    match stage
    case Snapshot => Snapped(w, context.assessment)
    case CopyPdf => if steps.pdf then w else w.(pdfs := w.pdfs + {PlaceOf(context)})
    case MarkPdf => Marked(w, steps.(pdf := true))
    case AskAudit => if steps.audited || AlreadyAudited(w) then w else Marked(w, steps.(auditStarted := true))
    case AppendAudit => w.(trail := w.trail + [Completed(Current(w).receipt, context.assessment.verdict, w.today)])
    case MarkAudit => Marked(w, steps.(audited := true))
    case WriteRow => if steps.stored then w else w.(rows := w.rows[context.day := RowOf(w, context)])
    case WriteContent => w.(content := w.content[context.day := context.assessment.text])
    case MarkStores => Marked(w, steps.(stored := true))
    case StartEmit => if steps.emitStarted || steps.emitted then w else Marked(w, steps.(emitStarted := true))
    case Emit => w.(emits := w.emits + 1)
    case MarkEmitted => Marked(w, steps.(emitted := true))
    case CloseReceipt => ReceiptClosed(w, Closed(context.assessment.verdict))
    case DropFailed => w.(failed := false)
  }

  /** Which stage comes after it. A delivery that may or may not have happened is never guessed
      at: the commit stops there. */
  function Following(w: World, context: Context, stage: Stage): Pc {
    var steps := Current(w).steps;
    match stage
    case Snapshot => Committing(context, CopyPdf)
    case CopyPdf => Committing(context, if steps.pdf then AskAudit else MarkPdf)
    case MarkPdf => Committing(context, AskAudit)
    case AskAudit => Committing(context, if steps.audited || AlreadyAudited(w) then MarkAudit else AppendAudit)
    case AppendAudit => Committing(context, MarkAudit)
    case MarkAudit => Committing(context, WriteRow)
    case WriteRow => Committing(context, if steps.stored then StartEmit else WriteContent)
    case WriteContent => Committing(context, MarkStores)
    case MarkStores => Committing(context, StartEmit)
    case StartEmit =>
      if Uncertain(Current(w)) then Idle else Committing(context, if steps.emitted then CloseReceipt else Emit)
    case Emit => Committing(context, MarkEmitted)
    case MarkEmitted => Committing(context, CloseReceipt)
    case CloseReceipt => Committing(context, DropFailed)
    case DropFailed => Removing
  }

  function CommitStep(w: World, context: Context, stage: Stage): World {
    Written(w, context, stage).(pc := Following(w, context, stage))
  }

  function Begin(w: World, context: Context): World {
    if context.assessment.verdict.Failed? then w.(pc := FailSnapshot(context))
    else To(w, context, Snapshot)
  }

  function ReceiptWritten(w: World): World {
    match Current(w).receipt
    case Some(r) => w.(receipts := w.receipts[r := Received], pc := Idle)
    case None => w.(pc := Idle)
  }

  function DuplicateAudited(w: World): World {
    match Current(w).receipt
    case Some(r) => w.(trail := w.trail + [ReceivedAgain(r)], pc := Removing)
    case None => w.(pc := Removing)
  }

  /** Extraction and scanning: whatever they decide, a failure is audited as it is found. */
  function Processed(w: World, day: int, outcome: Assessment): World {
    Begin(if outcome.verdict.Failed? then w.(trail := w.trail + [JobFailed]) else w, Context(day, outcome))
  }

  /** The staging directory goes one file at a time; a crash leaves the other one behind. */
  function Removed(w: World, manifestFirst: bool): World {
    if w.manifest.Some? && (manifestFirst || w.staged.None?) then w.(manifest := None)
    else if w.staged.Some? then w.(staged := None)
    else w.(pc := Idle)
  }

  function Advanced(w: World, outcome: Assessment, manifestFirst: bool): World {
    match w.pc
    case Idle => w
    case ClaimPdf => w.(staged := Some(w.today), pc := ClaimReceipt)
    case ClaimReceipt => ReceiptWritten(w)
    case Finishing(day) => w.(pc := if w.rows != map[] then DuplicateClose else Processing(day))
    case DuplicateClose => ReceiptClosed(w, Duplicate).(pc := DuplicateAudit)
    case DuplicateAudit => DuplicateAudited(w)
    case Processing(day) => Processed(w, day, outcome)
    case Committing(context, stage) => CommitStep(w, context, stage)
    case FailSnapshot(context) => Snapped(w, context.assessment).(pc := FailCopy)
    case FailCopy => w.(failed := true, pc := FailClose)
    case FailClose => ReceiptClosed(w, Closed(Failed)).(pc := Removing)
    case Removing => Removed(w, manifestFirst)
  }

  /** `_resume_one`, and the guards of the sweep around it. */
  function Resumed(w: World): World {
    var m := Current(w);
    if w.staged.None? || Uncertain(m) then w
    else
      var w' := if m.receipt.Some? && m.receipt.value !in w.receipts
                then w.(receipts := w.receipts[m.receipt.value := Received]) else w;
      var day := DayOf(w).value;
      match m.assessment
      case None => w'.(pc := Finishing(day))
      case Some(assessment) => Begin(w', Context(day, assessment))
  }

  /** The first write of a claim: a fresh receipt, whatever was staged here before. */
  function Claimed(w: World): World {
    w.(manifest := Some(Manifest(Some(w.nextReceipt), Some(w.today), NO_STEPS, None)),
       nextReceipt := w.nextReceipt + 1, pc := ClaimPdf)
  }

  /** An arrival that is not staged: a receipt and an event, and nothing else. */
  function Turned(w: World, e: Event): World {
    w.(receipts := w.receipts[w.nextReceipt := Duplicate], trail := w.trail + [e], nextReceipt := w.nextReceipt + 1)
  }

  /** The operator confirms that a repeated delivery is acceptable. */
  function Confirmed(w: World): World {
    w.(manifest := Some(Current(w).(steps := Current(w).steps.(emitStarted := false))), confirmed := w.confirmed + 1)
  }

  function Next(w: World, a: Action): World {
    match a
    case NextDay(day) => if day > w.today then w.(today := day) else w
    case Crash => w.(pc := Idle)
    case Advance(outcome, manifestFirst) => Advanced(w, outcome, manifestFirst)
    case Arrive => if !w.pc.Idle? then w else Claimed(w)
    // The job is indexed, or somebody holds its lock.
    case ArriveAgain => if w.rows == map[] then w else Turned(w, ReceivedAgain(w.nextReceipt))
    case ArriveDuring => if w.pc.Idle? then w else Turned(w, ReceivedWhileProcessing(w.nextReceipt))
    case Finish(day) => if !w.pc.Idle? || w.staged.None? then w else w.(pc := Finishing(day))
    case Resume => if !w.pc.Idle? then w else Resumed(w)
    case ConfirmRetry =>
      if !w.pc.Idle? || w.staged.None? || w.manifest.None? || !Uncertain(Current(w)) then w else Confirmed(w)
  }

  function Run(w: World, actions: seq<Action>): World
    decreases |actions|
  {
    if actions == [] then w else Run(Next(w, actions[0]), actions[1..])
  }
}
