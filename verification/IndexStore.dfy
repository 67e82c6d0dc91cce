/**
 One partition of the metadata index: a file per assessment, appended to by reassessors that
 read outside the store lock and write inside it, and merged by a compaction that holds the
 same lock and may die between any two deletions.
 */
module IndexStore {
  import opened Wrappers

  datatype Row = Row(job: nat, seqNo: nat, supersedes: Option<nat>, body: string)

  // `<job>_<seq>.parquet`, or the partition's one compacted file.
  datatype Name = One(job: nat, seqNo: nat) | Compacted

  type Files = map<Name, seq<Row>>

  // What the holder of the store lock still has to do.
  datatype Holder = Nobody | Appending(row: Row) | Compacting(rest: set<Name>)

  // `read` holds, per reassessor, the row it took as current some time ago.
  datatype World = World(files: Files, read: map<nat, Row>, lock: Holder)

  datatype Action =
    | Ingest(job: nat, body: string)
    | Read(reader: nat, row: Row)
    | BeginAppend(reader: nat, body: string)
    | Create
    | BeginCompact(merged: seq<Row>)
    | Unlink(name: Name)
    | Crash

  ghost predicate InStore(files: Files, r: Row) {
    exists n :: n in files && r in files[n]
  }

  /** The current assessment: the highest sequence number of its job, in whatever file. */
  ghost predicate IsLatest(files: Files, r: Row) {
    InStore(files, r) && forall o :: InStore(files, o) && o.job == r.job ==> o.seqNo <= r.seqNo
  }

  /** The merged file holds exactly what the listed files hold. */
  ghost predicate Merges(files: Files, merged: seq<Row>) {
    forall r :: r in merged <==> InStore(files, r)
  }

  ghost function Next(w: World, a: Action): World {
    match a
    case Ingest(job, body) =>
      // A job that is already indexed is a duplicate arrival and writes nothing.
      if w.lock.Nobody? && !(exists r :: InStore(w.files, r) && r.job == job)
      then w.(files := w.files[One(job, 1) := [Row(job, 1, None, body)]]) else w
    case Read(reader, row) => if IsLatest(w.files, row) then w.(read := w.read[reader := row]) else w
    case BeginAppend(reader, body) =>
      // Under the lock: the row read earlier must still be the current one.
      if w.lock.Nobody? && reader in w.read && IsLatest(w.files, w.read[reader])
      then w.(lock := Appending(Row(w.read[reader].job, w.read[reader].seqNo + 1, Some(w.read[reader].seqNo), body))) else w
    case Create =>
      if !w.lock.Appending? then w
      else if One(w.lock.row.job, w.lock.row.seqNo) in w.files then w.(lock := Nobody)
      else w.(files := w.files[One(w.lock.row.job, w.lock.row.seqNo) := [w.lock.row]], lock := Nobody)
    case BeginCompact(merged) =>
      if w.lock.Nobody? && |w.files| >= 2 && Merges(w.files, merged)
      then w.(files := w.files[Compacted := merged], lock := Compacting(w.files.Keys - {Compacted})) else w
    case Unlink(name) =>
      if w.lock.Compacting? && name in w.lock.rest
      then w.(files := w.files - {name},
              lock := if w.lock.rest == {name} then Nobody else Compacting(w.lock.rest - {name})) else w
    case Crash => w.(lock := Nobody)
  }

  ghost function Run(w: World, actions: seq<Action>): World
    decreases |actions|
  {
    if actions == [] then w else Run(Next(w, actions[0]), actions[1..])
  }

  const START := World(map[], map[], Nobody)

  // ----- what every step keeps

  ghost predicate NamesKept(files: Files) {
    forall j, s :: One(j, s) in files ==> |files[One(j, s)]| == 1 && files[One(j, s)][0].job == j && files[One(j, s)][0].seqNo == s
  }

  /** No two rows share a job and a sequence number. */
  ghost predicate Unique(files: Files) {
    forall r, o :: InStore(files, r) && InStore(files, o) && r.job == o.job && r.seqNo == o.seqNo ==> r == o
  }

  ghost predicate Numbered(files: Files, job: nat, seqNo: nat) {
    exists o :: InStore(files, o) && o.job == job && o.seqNo == seqNo
  }

  /** A row is the first of its job, or supersedes the row before it, which is there. */
  ghost predicate Linked(files: Files, r: Row) {
    && r.seqNo >= 1
    && r.supersedes == (if r.seqNo == 1 then None else Some(r.seqNo - 1))
    && (r.seqNo > 1 ==> Numbered(files, r.job, r.seqNo - 1))
  }

  ghost predicate Chained(files: Files) {
    forall r {:trigger Linked(files, r)} :: InStore(files, r) ==> Linked(files, r)
  }

  ghost predicate Below(files: Files, job: nat, seqNo: nat) {
    forall o :: InStore(files, o) && o.job == job ==> o.seqNo < seqNo
  }

  ghost predicate LockKept(w: World) {
    match w.lock
    case Nobody => true
    case Appending(row) =>
      && row.seqNo > 1 && row.supersedes == Some(row.seqNo - 1)
      && Numbered(w.files, row.job, row.seqNo - 1)
      && Below(w.files, row.job, row.seqNo)
    case Compacting(rest) =>
      && Compacted in w.files && Compacted !in rest && rest <= w.files.Keys
      && (forall n, r :: n in rest && r in w.files[n] ==> r in w.files[Compacted])
  }

  ghost predicate Inv(w: World) {
    NamesKept(w.files) && Unique(w.files) && Chained(w.files) && LockKept(w)
  }

  ghost predicate SameRows(files: Files, after: Files) {
    forall r :: InStore(after, r) <==> InStore(files, r)
  }

  ghost predicate OneRowMore(files: Files, after: Files, row: Row) {
    forall r :: InStore(after, r) <==> InStore(files, r) || r == row
  }

  lemma StaysNumbered(files: Files, after: Files, job: nat, seqNo: nat)
    requires Numbered(files, job, seqNo) && forall r :: InStore(files, r) ==> InStore(after, r)
    ensures Numbered(after, job, seqNo)
  {
    var o :| InStore(files, o) && o.job == job && o.seqNo == seqNo;
    assert InStore(after, o);
  }

  lemma SameRowsKeep(files: Files, after: Files)
    requires Unique(files) && Chained(files) && SameRows(files, after)
    ensures Unique(after) && Chained(after)
  {
    forall r | InStore(after, r) ensures Linked(after, r) {
      assert Linked(files, r);
      if r.seqNo > 1 { StaysNumbered(files, after, r.job, r.seqNo - 1); }
    }
  }

  lemma NewRowKeeps(files: Files, after: Files, row: Row)
    requires Unique(files) && Chained(files) && OneRowMore(files, after, row)
    requires Below(files, row.job, row.seqNo) && Linked(files, row)
    ensures Unique(after) && Chained(after)
  {
    forall r | InStore(after, r) ensures Linked(after, r) {
      assert Linked(files, r);
      if r.seqNo > 1 { StaysNumbered(files, after, r.job, r.seqNo - 1); }
    }
  }

  lemma FileAdded(files: Files, name: Name, row: Row)
    requires name !in files
    ensures OneRowMore(files, files[name := [row]], row)
  {
    var after := files[name := [row]];
    assert row in after[name];
    forall r | InStore(files, r) ensures InStore(after, r) {
      var n :| n in files && r in files[n];
      assert r in after[n];
    }
  }

  /** The name of the next assessment is free whenever the caller is allowed to take it. */
  lemma NextNameIsFree(files: Files, job: nat, seqNo: nat)
    requires NamesKept(files) && Below(files, job, seqNo)
    ensures One(job, seqNo) !in files
  {
    if One(job, seqNo) in files { FirstIsInStore(files, One(job, seqNo)); }
  }

  lemma FirstIsInStore(files: Files, name: Name)
    requires name in files && files[name] != []
    ensures InStore(files, files[name][0])
  {
    assert files[name][0] in files[name];
  }

  lemma MergedHoldsAll(files: Files, merged: seq<Row>)
    requires Merges(files, merged)
    ensures SameRows(files, files[Compacted := merged])
  {
    var after := files[Compacted := merged];
    forall r ensures InStore(after, r) <==> InStore(files, r) {
      if InStore(after, r) {
        var n :| n in after && r in after[n];
        if n != Compacted { assert r in files[n]; }
      }
      if InStore(files, r) { assert r in after[Compacted]; }
    }
  }

  lemma UnlinkLosesNothing(w: World, name: Name)
    requires LockKept(w) && w.lock.Compacting? && name in w.lock.rest
    ensures SameRows(w.files, w.files - {name})
  {
    var after := w.files - {name};
    forall r | InStore(w.files, r) ensures InStore(after, r) {
      var n :| n in w.files && r in w.files[n];
      if n == name { assert r in after[Compacted]; } else { assert r in after[n]; }
    }
    forall r | InStore(after, r) ensures InStore(w.files, r) {
      var n :| n in after && r in after[n];
      assert r in w.files[n];
    }
  }

  lemma IngestKeeps(w: World, job: nat, body: string)
    requires Inv(w) && w.lock.Nobody? && !exists r :: InStore(w.files, r) && r.job == job
    ensures Inv(Next(w, Ingest(job, body)))
  {
    var row := Row(job, 1, None, body);
    NextNameIsFree(w.files, job, 1);
    FileAdded(w.files, One(job, 1), row);
    NewRowKeeps(w.files, w.files[One(job, 1) := [row]], row);
  }

  lemma CreateKeeps(w: World)
    requires Inv(w) && w.lock.Appending?
    ensures Inv(Next(w, Create))
  {
    var row := w.lock.row;
    NextNameIsFree(w.files, row.job, row.seqNo);
    FileAdded(w.files, One(row.job, row.seqNo), row);
    NewRowKeeps(w.files, w.files[One(row.job, row.seqNo) := [row]], row);
  }

  lemma UnlinkKeeps(w: World, name: Name)
    requires Inv(w) && w.lock.Compacting? && name in w.lock.rest
    ensures Inv(Next(w, Unlink(name)))
  {
    UnlinkLosesNothing(w, name);
    SameRowsKeep(w.files, w.files - {name});
  }

  lemma AppendBegins(w: World, reader: nat, body: string)
    requires Inv(w) && reader in w.read && IsLatest(w.files, w.read[reader])
    ensures Inv(Next(w, BeginAppend(reader, body)))
  {
    var o := w.read[reader];
    assert Linked(w.files, o);
    assert Numbered(w.files, o.job, o.seqNo);
  }

  lemma StepKeeps(w: World, a: Action)
    requires Inv(w)
    ensures Inv(Next(w, a))
  {
    match a {
      case Ingest(job, body) => if Next(w, a) != w { IngestKeeps(w, job, body); }
      case Create => if w.lock.Appending? { CreateKeeps(w); }
      case BeginAppend(reader, body) =>
        if reader in w.read && IsLatest(w.files, w.read[reader]) { AppendBegins(w, reader, body); }
      case BeginCompact(merged) => CompactBegins(w, merged);
      case Unlink(name) => if w.lock.Compacting? && name in w.lock.rest { UnlinkKeeps(w, name); }
      case _ =>
    }
  }

  lemma CompactBegins(w: World, merged: seq<Row>)
    requires Inv(w)
    ensures Inv(Next(w, BeginCompact(merged)))
  {
    if w.lock.Nobody? && |w.files| >= 2 && Merges(w.files, merged) {
      var w' := Next(w, BeginCompact(merged));
      MergedHoldsAll(w.files, merged);
      SameRowsKeep(w.files, w'.files);
      forall n, r | n in w'.lock.rest && r in w'.files[n] ensures r in merged {
        assert InStore(w.files, r);
      }
    }
  }

  lemma {:induction false} RunKeeps(w: World, actions: seq<Action>)
    requires Inv(w)
    ensures Inv(Run(w, actions))
    decreases |actions|
  {
    if actions != [] {
      StepKeeps(w, actions[0]);
      RunKeeps(Next(w, actions[0]), actions[1..]);
    }
  }

  // ----- what the store promises

  /** However many reassessors read outside the lock and append inside it, with compactions that
      die at any point in between, each job's history is one chain 1, 2, 3 without a gap: every
      number has one row, and each row supersedes the one before. */
  lemma HistoryIsOneChain(actions: seq<Action>, r: Row, k: nat)
    requires InStore(Run(START, actions).files, r) && 1 <= k <= r.seqNo
    ensures var files := Run(START, actions).files;
            exists o :: InStore(files, o) && o.job == r.job && o.seqNo == k &&
                        o.supersedes == (if k == 1 then None else Some(k - 1)) &&
                        forall p :: InStore(files, p) && p.job == r.job && p.seqNo == k ==> p == o
  {
    RunKeeps(START, actions);
    DownTo(Run(START, actions).files, r, k);
  }

  lemma {:induction false} DownTo(files: Files, r: Row, k: nat)
    requires Unique(files) && Chained(files) && InStore(files, r) && 1 <= k <= r.seqNo
    ensures exists o :: InStore(files, o) && o.job == r.job && o.seqNo == k &&
                        o.supersedes == (if k == 1 then None else Some(k - 1)) &&
                        forall p :: InStore(files, p) && p.job == r.job && p.seqNo == k ==> p == o
    decreases r.seqNo - k
  {
    assert Linked(files, r);
    if k < r.seqNo {
      var before :| InStore(files, before) && before.job == r.job && before.seqNo == r.seqNo - 1;
      DownTo(files, before, k);
    }
  }

  /** Every step of a compaction, and a crash after any of them, leaves the same rows in the
      store and so the same current row for every job. */
  lemma CompactionChangesNothing(actions: seq<Action>, a: Action, r: Row)
    requires a.BeginCompact? || a.Unlink? || a.Crash?
    ensures var w := Run(START, actions);
            && (InStore(Next(w, a).files, r) <==> InStore(w.files, r))
            && (IsLatest(Next(w, a).files, r) <==> IsLatest(w.files, r))
  {
    var w := Run(START, actions);
    RunKeeps(START, actions);
    SameRowsAfter(w, a);
  }

  lemma SameRowsAfter(w: World, a: Action)
    requires Inv(w) && (a.BeginCompact? || a.Unlink? || a.Crash?)
    ensures SameRows(w.files, Next(w, a).files)
  {
    match a {
      case BeginCompact(merged) => if Merges(w.files, merged) { MergedHoldsAll(w.files, merged); }
      case Unlink(name) => if w.lock.Compacting? && name in w.lock.rest { UnlinkLosesNothing(w, name); }
      case _ =>
    }
  }

  /** No recorded assessment is ever lost, and the exclusive create of an allowed append never
      finds its name taken. */
  lemma AppendsNeverCollide(actions: seq<Action>, a: Action, r: Row)
    ensures var w := Run(START, actions);
            && (InStore(w.files, r) ==> InStore(Next(w, a).files, r))
            && (w.lock.Appending? ==> InStore(Next(w, Create).files, w.lock.row))
  {
    RunKeeps(START, actions);
    if InStore(Run(START, actions).files, r) { NothingLost(Run(START, actions), a, r); }
    CreateSucceeds(Run(START, actions));
  }

  lemma CreateSucceeds(w: World)
    requires Inv(w)
    ensures w.lock.Appending? ==> InStore(Next(w, Create).files, w.lock.row)
  {
    if w.lock.Appending? {
      NextNameIsFree(w.files, w.lock.row.job, w.lock.row.seqNo);
      FileAdded(w.files, One(w.lock.row.job, w.lock.row.seqNo), w.lock.row);
    }
  }

  lemma NothingLost(w: World, a: Action, r: Row)
    requires Inv(w) && InStore(w.files, r)
    ensures InStore(Next(w, a).files, r)
  {
    match a {
      case Ingest(job, body) =>
        if Next(w, a) != w {
          NextNameIsFree(w.files, job, 1);
          FileAdded(w.files, One(job, 1), Row(job, 1, None, body));
        }
      case Create =>
        if w.lock.Appending? {
          NextNameIsFree(w.files, w.lock.row.job, w.lock.row.seqNo);
          FileAdded(w.files, One(w.lock.row.job, w.lock.row.seqNo), w.lock.row);
        }
      case BeginCompact(_) => SameRowsAfter(w, a);
      case Unlink(_) => SameRowsAfter(w, a);
      case _ =>
    }
  }

  // ----- the merge itself

  /** One of the first `n` listed files holds the row. */
  ghost predicate Held(files: Files, listed: seq<Name>, n: nat, r: Row)
    requires n <= |listed|
  {
    exists k :: 0 <= k < n && listed[k] in files && r in files[listed[k]]
  }

  lemma AllHeld(files: Files, listed: seq<Name>, merged: seq<Row>)
    requires forall n :: n in listed <==> n in files
    requires forall r :: r in merged <==> Held(files, listed, |listed|, r)
    ensures Merges(files, merged)
  {
    forall r ensures r in merged <==> InStore(files, r) {
      if InStore(files, r) {
        var n :| n in files && r in files[n];
        var k :| 0 <= k < |listed| && listed[k] == n;
        assert Held(files, listed, |listed|, r);
      }
    }
  }

  lemma MergedAlone(files: Files, merged: seq<Row>)
    requires Merges(files, merged)
    ensures SameRows(files, map[Compacted := merged])
  {
    var after: Files := map[Compacted := merged];
    forall r ensures InStore(after, r) <==> InStore(files, r) {
      if InStore(files, r) { assert r in after[Compacted]; }
    }
  }

  class Partition {
    var files: Files

    constructor ()
      ensures files == map[]
    {
      files := map[];
    }

    /** `write_row`: with the exclusive guard a name that is taken refuses the row; without it, as
        ingest writes, the file is replaced. */
    method WriteRow(row: Row, exclusive: bool) returns (written: bool)
      modifies this
      ensures !written <==> exclusive && One(row.job, row.seqNo) in old(files)
      ensures files == if written then old(files)[One(row.job, row.seqNo) := [row]] else old(files)
      ensures One(row.job, row.seqNo) !in old(files) ==> OneRowMore(old(files), files, row)
      ensures One(row.job, row.seqNo) in old(files) && old(files)[One(row.job, row.seqNo)] == [row] ==> files == old(files)
    {
      var name := One(row.job, row.seqNo);
      if exclusive && name in files { return false; }
      if name !in files { FileAdded(files, name, row); }
      files := files[name := [row]];
      return true;
    }

    /** Every row of every listed file. */
    method Gather(listed: seq<Name>) returns (merged: seq<Row>)
      requires forall n :: n in listed ==> n in files
      ensures forall r :: r in merged <==> Held(files, listed, |listed|, r)
    {
      merged := [];
      for i := 0 to |listed|
        invariant forall r :: r in merged <==> Held(files, listed, i, r)
      {
        forall r ensures r in merged + files[listed[i]] <==> Held(files, listed, i + 1, r) { }
        merged := merged + files[listed[i]];
      }
    }

    /** The originals go one by one; the merged file stays. */
    method UnlinkOriginals(listed: seq<Name>, merged: seq<Row>)
      requires Compacted in files && files[Compacted] == merged
      requires forall n :: n in files && n != Compacted ==> n in listed
      modifies this
      ensures files == map[Compacted := merged]
    {
      for i := 0 to |listed|
        invariant Compacted in files && files[Compacted] == merged
        invariant forall n :: n in files && n != Compacted ==> n in listed[i..]
      {
        assert forall n :: n in listed[i..] ==> n == listed[i] || n in listed[i + 1..];
        if listed[i] != Compacted {
          files := files - {listed[i]};
        }
      }
    }

    /** `_compact`: the merged file is in place before the first original goes. */
    method Compact(listed: seq<Name>)
      requires forall n :: n in listed <==> n in files
      modifies this
      ensures SameRows(old(files), files)
      ensures |listed| >= 2 ==> files.Keys == {Compacted}
      ensures |listed| < 2 ==> files == old(files)
    {
      if |listed| < 2 { return; }
      var merged := Gather(listed);
      AllHeld(files, listed, merged);
      MergedAlone(files, merged);
      files := files[Compacted := merged];
      UnlinkOriginals(listed, merged);
    }
  }

  /** What the ingest of a new job writes. */
  lemma IngestIsWritten(actions: seq<Action>, job: nat, body: string)
    requires Run(START, actions).lock.Nobody?
    requires forall r :: InStore(Run(START, actions).files, r) ==> r.job != job
    ensures var after := Next(Run(START, actions), Ingest(job, body));
            OneRowMore(Run(START, actions).files, after.files, Row(job, 1, None, body))
  {
    var w := Run(START, actions);
    RunKeeps(START, actions);
    NextNameIsFree(w.files, job, 1);
    FileAdded(w.files, One(job, 1), Row(job, 1, None, body));
  }

  lemma AppendIsMade(w: World, reader: nat, body: string)
    requires Inv(w) && w.lock.Nobody? && reader in w.read && IsLatest(w.files, w.read[reader])
    ensures var before, after := w.read[reader], Next(Next(w, BeginAppend(reader, body)), Create);
            var row := Row(before.job, before.seqNo + 1, Some(before.seqNo), body);
            OneRowMore(w.files, after.files, row) && after.lock.Nobody?
  {
    AppendBegins(w, reader, body);
    var begun := Next(w, BeginAppend(reader, body));
    NextNameIsFree(begun.files, begun.lock.row.job, begun.lock.row.seqNo);
    FileAdded(begun.files, One(begun.lock.row.job, begun.lock.row.seqNo), begun.lock.row);
  }

  /** What an allowed reassessment writes: its own text under the next number, after the row its
      writer read; and that row is the current one from then on. */
  lemma AppendIsWritten(actions: seq<Action>, reader: nat, body: string)
    requires var w := Run(START, actions); w.lock.Nobody? && reader in w.read && IsLatest(w.files, w.read[reader])
    ensures var w := Run(START, actions);
            var before, after := w.read[reader], Next(Next(w, BeginAppend(reader, body)), Create);
            var row := Row(before.job, before.seqNo + 1, Some(before.seqNo), body);
            OneRowMore(w.files, after.files, row) && IsLatest(after.files, row) && after.lock.Nobody?
  {
    RunKeeps(START, actions);
    AppendIsMade(Run(START, actions), reader, body);
  }
}
