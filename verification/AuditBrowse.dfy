/**
 Browsing the trail: `events` reads partitions newest first and stops early, and the console
 follows a cursor from page to page. On every trail the ledger can reach, stopping early changes
 nothing and the pages together show each event once.
 */
module AuditBrowse {
  import opened Wrappers
  import opened AuditLedger
  import opened Sequences
  import opened Sorting
  import LedgerRuns

  const PAGE: nat := 100

  datatype Range = Range(first: Option<int>, last: Option<int>)

  predicate InRange(day: int, range: Range) {
    (range.first.Some? ==> day >= range.first.value) && (range.last.Some? ==> day <= range.last.value)
  }

  function Below(events: seq<Event>, before: Option<int>): seq<Event> {
    if events == [] then []
    else
      (if before.None? || events[0].content.seqNo < before.value then [events[0]] else []) + Below(events[1..], before)
  }

  /** Every event of the range, in the order of the trail. */
  function Chosen(parts: seq<Part>, range: Range): seq<Event> {
    if parts == [] then []
    else (if InRange(parts[0].day, range) then Readable(parts[0].lines) else []) + Chosen(parts[1..], range)
  }

  function Newness(e: Event): real {
    -(e.content.seqNo as real)
  }

  function Take<T>(s: seq<T>, limit: nat): seq<T> {
    if |s| <= limit then s else s[..limit]
  }

  /** The specification: filter the whole trail, sort it by descending number, cut it. */
  function Browsed(parts: seq<Part>, range: Range, before: Option<int>, limit: nat): seq<Event> {
    Take(Sorted(Below(Chosen(parts, range), before), Newness), limit)
  }

  ghost predicate Rising(events: seq<Event>) {
    forall i, j :: 0 <= i < j < |events| ==> events[i].content.seqNo < events[j].content.seqNo
  }

  function Backwards(events: seq<Event>): seq<Event> {
    seq(|events|, i requires 0 <= i < |events| => events[|events| - 1 - i])
  }

  // ----- what filtering keeps

  lemma {:induction false} BelowConcat(a: seq<Event>, b: seq<Event>, before: Option<int>)
    ensures Below(a + b, before) == Below(a, before) + Below(b, before)
  {
    if a == [] {
      assert a + b == b;
    } else {
      BelowConcat(a[1..], b, before);
      assert (a + b)[0] == a[0] && (a + b)[1..] == a[1..] + b;
      var own := if before.None? || a[0].content.seqNo < before.value then [a[0]] else [];
      Associates(own, Below(a[1..], before), Below(b, before));
    }
  }

  lemma {:induction false} BelowIn(events: seq<Event>, before: Option<int>, e: Event)
    ensures e in Below(events, before) <==> e in events && (before.None? || e.content.seqNo < before.value)
  {
    if events != [] { BelowIn(events[1..], before, e); }
  }

  lemma {:induction false} BelowRises(events: seq<Event>, before: Option<int>)
    requires Rising(events)
    ensures Rising(Below(events, before))
  {
    if events != [] {
      var rest := Below(events[1..], before);
      BelowRises(events[1..], before);
      forall j | 0 <= j < |rest| ensures events[0].content.seqNo < rest[j].content.seqNo {
        BelowIn(events[1..], before, rest[j]);
        var i :| 0 <= i < |events[1..]| && events[1..][i] == rest[j];
        assert events[i + 1] == rest[j];
      }
    }
  }

  lemma {:induction false} ChosenConcat(a: seq<Part>, b: seq<Part>, range: Range)
    ensures Chosen(a + b, range) == Chosen(a, range) + Chosen(b, range)
  {
    if a == [] {
      assert a + b == b;
    } else {
      ChosenConcat(a[1..], b, range);
      assert (a + b)[1..] == a[1..] + b;
    }
  }

  lemma {:induction false} ChosenIn(parts: seq<Part>, range: Range, e: Event)
    requires e in Chosen(parts, range)
    ensures e in Readable(Lines(parts))
  {
    LedgerRuns.ReadableConcat(parts[0].lines, Lines(parts[1..]));
    if e !in Readable(parts[0].lines) { ChosenIn(parts[1..], range, e); }
  }

  lemma RisingParts(a: seq<Event>, b: seq<Event>)
    requires Rising(a + b)
    ensures Rising(a) && Rising(b)
    ensures forall x, y :: x in a && y in b ==> x.content.seqNo < y.content.seqNo
  {
    var all := a + b;
    assert forall i :: 0 <= i < |a| ==> all[i] == a[i];
    assert forall i :: 0 <= i < |b| ==> all[|a| + i] == b[i];
  }

  lemma {:induction false} ChosenRises(parts: seq<Part>, range: Range)
    requires Rising(Readable(Lines(parts)))
    ensures Rising(Chosen(parts, range))
  {
    if parts != [] {
      var own, later := Readable(parts[0].lines), Chosen(parts[1..], range);
      LedgerRuns.ReadableConcat(parts[0].lines, Lines(parts[1..]));
      RisingParts(own, Readable(Lines(parts[1..])));
      ChosenRises(parts[1..], range);
      forall e | e in later ensures e in Readable(Lines(parts[1..])) { ChosenIn(parts[1..], range, e); }
    }
  }

  // ----- one order only

  ghost predicate Falling(events: seq<Event>) {
    forall i, j :: 0 <= i < j < |events| ==> events[i].content.seqNo > events[j].content.seqNo
  }

  lemma HeadIsGreatest(a: seq<Event>, b: seq<Event>)
    requires a != [] && b != [] && Falling(a) && SortedBy(b, Newness) && multiset(a) == multiset(b)
    ensures a[0] == b[0]
  {
    assert a[0] in multiset(b) && b[0] in multiset(a);
    var i :| 0 <= i < |b| && b[i] == a[0];
    var j :| 0 <= j < |a| && a[j] == b[0];
    if i > 0 { assert Newness(b[0]) <= Newness(b[i]); }
  }

  lemma SameRest(a: seq<Event>, b: seq<Event>)
    requires a != [] && b != [] && a[0] == b[0] && multiset(a) == multiset(b)
    ensures multiset(a[1..]) == multiset(b[1..])
  {
    assert a == [a[0]] + a[1..] && b == [b[0]] + b[1..];
    assert multiset(a[1..]) == multiset(a) - multiset{a[0]};
    assert multiset(b[1..]) == multiset(b) - multiset{b[0]};
  }

  /** Falling numbers leave a sort no choice. */
  lemma {:induction false} OneOrder(a: seq<Event>, b: seq<Event>)
    requires Falling(a) && SortedBy(b, Newness) && multiset(a) == multiset(b)
    ensures a == b
  {
    assert |multiset(a)| == |a| && |multiset(b)| == |b|;
    if a != [] {
      HeadIsGreatest(a, b);
      SameRest(a, b);
      OneOrder(a[1..], b[1..]);
      assert a == [a[0]] + a[1..] && b == [b[0]] + b[1..];
    }
  }

  lemma {:induction false} BackwardsIsSame(events: seq<Event>)
    ensures multiset(Backwards(events)) == multiset(events)
  {
    if events != [] {
      BackwardsIsSame(events[1..]);
      assert Backwards(events) == Backwards(events[1..]) + [events[0]];
      assert events == [events[0]] + events[1..];
    }
  }

  /** Sorting any arrangement of rising events turns them round. */
  lemma SortTurnsRound(read: seq<Event>, events: seq<Event>)
    requires Rising(events) && multiset(read) == multiset(events)
    ensures Sorted(read, Newness) == Backwards(events)
  {
    BackwardsIsSame(events);
    SortedIsSorted(read, Newness);
    OneOrder(Backwards(events), Sorted(read, Newness));
  }

  // ----- reading newest first

  /** What has been read when the partitions from `m` on are done, in the order it is read. */
  function Collected(parts: seq<Part>, range: Range, before: Option<int>, m: nat): seq<Event>
    requires m <= |parts|
    decreases |parts| - m
  {
    if m == |parts| then []
    else
      Collected(parts, range, before, m + 1) +
      if InRange(parts[m].day, range) then Below(Readable(parts[m].lines), before) else []
  }

  lemma {:induction false} CollectedIsChosen(parts: seq<Part>, range: Range, before: Option<int>, m: nat)
    requires m <= |parts|
    ensures multiset(Collected(parts, range, before, m)) == multiset(Below(Chosen(parts[m..], range), before))
    decreases |parts| - m
  {
    if m < |parts| {
      CollectedIsChosen(parts, range, before, m + 1);
      assert parts[m..][1..] == parts[m + 1..];
      var own := if InRange(parts[m].day, range) then Readable(parts[m].lines) else [];
      BelowConcat(own, Chosen(parts[m + 1..], range), before);
    }
  }

  lemma TakeFromFront<T>(a: seq<T>, b: seq<T>, limit: nat)
    requires b == [] || |a| >= limit
    ensures Take(a + b, limit) == Take(a, limit)
  {
  }

  lemma ChosenSplits(parts: seq<Part>, range: Range, before: Option<int>, m: nat)
    requires m <= |parts|
    ensures Below(Chosen(parts, range), before) ==
            Below(Chosen(parts[..m], range), before) + Below(Chosen(parts[m..], range), before)
  {
    assert parts == parts[..m] + parts[m..];
    ChosenConcat(parts[..m], parts[m..], range);
    BelowConcat(Chosen(parts[..m], range), Chosen(parts[m..], range), before);
  }

  lemma LeftRises(parts: seq<Part>, range: Range, before: Option<int>)
    requires Rising(Readable(Lines(parts)))
    ensures Rising(Below(Chosen(parts, range), before))
    ensures Sorted(Below(Chosen(parts, range), before), Newness) == Backwards(Below(Chosen(parts, range), before))
  {
    ChosenRises(parts, range);
    BelowRises(Chosen(parts, range), before);
    SortTurnsRound(Below(Chosen(parts, range), before), Below(Chosen(parts, range), before));
  }

  lemma BackwardsConcat(a: seq<Event>, b: seq<Event>)
    ensures Backwards(a + b) == Backwards(b) + Backwards(a)
  {
  }

  /** Once the limit is reached, or everything is read, older partitions change nothing. */
  lemma EarlyStopLosesNothing(parts: seq<Part>, range: Range, before: Option<int>, limit: nat, m: nat)
    requires Rising(Readable(Lines(parts))) && m <= |parts|
    requires m == 0 || |Collected(parts, range, before, m)| >= limit
    ensures Take(Sorted(Collected(parts, range, before, m), Newness), limit) == Browsed(parts, range, before, limit)
  {
    var older, newer := Below(Chosen(parts[..m], range), before), Below(Chosen(parts[m..], range), before);
    var read := Collected(parts, range, before, m);
    ChosenSplits(parts, range, before, m);
    LeftRises(parts, range, before);
    RisingParts(older, newer);
    CollectedIsChosen(parts, range, before, m);
    SortTurnsRound(read, newer);
    BackwardsConcat(older, newer);
    assert |newer| == |multiset(newer)| == |multiset(read)| == |read|;
    if m == 0 { assert parts[..m] == []; }
    TakeFromFront(Backwards(newer), Backwards(older), limit);
  }

  /** `events`: newest partition first, stopping as soon as `limit` events are in hand. */
  method Events(parts: seq<Part>, range: Range, before: Option<int>, limit: nat) returns (r: seq<Event>)
    ensures Rising(Readable(Lines(parts))) ==> r == Browsed(parts, range, before, limit)
  {
    var out: seq<Event> := [];
    var i := |parts|;
    while i > 0
      invariant 0 <= i <= |parts| && out == Collected(parts, range, before, i)
    {
      i := i - 1;
      if !InRange(parts[i].day, range) { continue; }
      out := out + Below(Readable(parts[i].lines), before);
      if |out| >= limit { break; }
    }
    r := Take(Sorted(out, Newness), limit);
    if Rising(Readable(Lines(parts))) { EarlyStopLosesNothing(parts, range, before, limit, i); }
  }

  // ----- pages

  datatype Page = Page(events: seq<Event>, next: Option<int>)

  /** One more event than a page holds is asked for, to see whether there is another page. */
  function PageOf(events: seq<Event>): Page {
    Page(Take(events, PAGE), if |events| > PAGE then Some(events[PAGE - 1].content.seqNo) else None)
  }

  function PageAt(parts: seq<Part>, range: Range, before: Option<int>): Page {
    PageOf(Browsed(parts, range, before, PAGE + 1))
  }

  /** The console's pages, each asked for with the cursor the one before gave. */
  ghost predicate Followed(parts: seq<Part>, range: Range, before: Option<int>, pages: seq<Page>)
    decreases |pages|
  {
    && pages != []
    && pages[0] == PageAt(parts, range, before)
    && if pages[0].next.None? then |pages| == 1 else Followed(parts, range, pages[0].next, pages[1..])
  }

  function Shown(pages: seq<Page>): seq<Event> {
    if pages == [] then [] else pages[0].events + Shown(pages[1..])
  }

  /** Going below a number in the list leaves the list up to that place. */
  lemma {:induction false} BelowOf(events: seq<Event>, k: nat)
    requires Rising(events) && k < |events|
    ensures Below(events, Some(events[k].content.seqNo)) == events[..k]
  {
    var n := events[k].content.seqNo;
    if k == 0 {
      if Below(events, Some(n)) != [] {
        var e := Below(events, Some(n))[0];
        BelowIn(events, Some(n), e);
        assert false;
      }
    } else {
      forall i, j | 0 <= i < j < |events[1..]| ensures events[1..][i].content.seqNo < events[1..][j].content.seqNo {
        assert events[i + 1].content.seqNo < events[j + 1].content.seqNo;
      }
      BelowOf(events[1..], k - 1);
      assert events[0].content.seqNo < n;
      assert events[..k] == [events[0]] + events[1..][..k - 1];
    }
  }

  lemma {:induction false} BelowTwice(events: seq<Event>, before: Option<int>, n: int)
    requires before.None? || n <= before.value
    ensures Below(Below(events, before), Some(n)) == Below(events, Some(n))
  {
    if events != [] {
      BelowTwice(events[1..], before, n);
      var own := if before.None? || events[0].content.seqNo < before.value then [events[0]] else [];
      BelowConcat(own, Below(events[1..], before), Some(n));
    }
  }

  /** The newest hundred of what is left, with the last of them as the cursor. */
  function NewestOf(left: seq<Event>): Page {
    if |left| <= PAGE then Page(Backwards(left), None)
    else Page(Backwards(left[|left| - PAGE..]), Some(left[|left| - PAGE].content.seqNo))
  }

  lemma NewestPage(left: seq<Event>)
    ensures PageOf(Take(Backwards(left), PAGE + 1)) == NewestOf(left)
  {
    if |left| > PAGE {
      assert Take(Take(Backwards(left), PAGE + 1), PAGE) == Backwards(left[|left| - PAGE..]);
    }
  }

  /** A page shows the newest hundred of what is left. */
  lemma PageIsNewest(parts: seq<Part>, range: Range, before: Option<int>)
    requires Rising(Readable(Lines(parts)))
    ensures PageAt(parts, range, before) == NewestOf(Below(Chosen(parts, range), before))
  {
    LeftRises(parts, range, before);
    NewestPage(Below(Chosen(parts, range), before));
  }

  lemma BelowCut(events: seq<Event>, before: Option<int>, k: nat)
    requires Rising(Below(events, before)) && k < |Below(events, before)|
    ensures Below(events, Some(Below(events, before)[k].content.seqNo)) == Below(events, before)[..k]
  {
    var e := Below(events, before)[k];
    assert before.None? || e.content.seqNo < before.value by { BelowIn(events, before, e); }
    BelowTwice(events, before, e.content.seqNo);
    BelowOf(Below(events, before), k);
  }

  lemma CursorCuts(events: seq<Event>, before: Option<int>)
    requires Rising(Below(events, before)) && |Below(events, before)| > PAGE
    ensures var left := Below(events, before);
            var cursor := left[|left| - PAGE].content.seqNo;
            Below(events, Some(cursor)) == left[..|left| - PAGE] && cursor > left[0].content.seqNo
  {
    BelowCut(events, before, |Below(events, before)| - PAGE);
  }

  /** The cursor leaves exactly the events no page has shown yet, and is never below the
      number after the oldest. */
  lemma CursorLeavesRest(parts: seq<Part>, range: Range, before: Option<int>)
    requires Rising(Readable(Lines(parts))) && |Below(Chosen(parts, range), before)| > PAGE
    ensures var left := Below(Chosen(parts, range), before);
            var cursor := left[|left| - PAGE].content.seqNo;
            Below(Chosen(parts, range), Some(cursor)) == left[..|left| - PAGE] && cursor > left[0].content.seqNo
  {
    ChosenRises(parts, range);
    BelowRises(Chosen(parts, range), before);
    CursorCuts(Chosen(parts, range), before);
  }

  lemma BackwardsInTwo(left: seq<Event>, k: nat)
    requires k <= |left|
    ensures Backwards(left) == Backwards(left[k..]) + Backwards(left[..k])
  {
    assert left == left[..k] + left[k..];
    BackwardsConcat(left[..k], left[k..]);
  }

  /** Following the cursor shows what is left, newest first, each event once. */
  lemma {:induction false} PagesShowAll(parts: seq<Part>, range: Range, before: Option<int>, pages: seq<Page>)
    requires Rising(Readable(Lines(parts))) && Followed(parts, range, before, pages)
    ensures Shown(pages) == Backwards(Below(Chosen(parts, range), before))
    decreases |pages|
  {
    var left := Below(Chosen(parts, range), before);
    PageIsNewest(parts, range, before);
    if |left| <= PAGE {
      assert Shown(pages[1..]) == [];
    } else {
      var k := |left| - PAGE;
      CursorLeavesRest(parts, range, before);
      PagesShowAll(parts, range, pages[0].next, pages[1..]);
      BackwardsInTwo(left, k);
    }
  }

  /** The cursor comes to an end. */
  lemma {:induction false} PagesEnd(parts: seq<Part>, range: Range, before: Option<int>) returns (pages: seq<Page>)
    requires Rising(Readable(Lines(parts)))
    ensures Followed(parts, range, before, pages)
    decreases |Below(Chosen(parts, range), before)|
  {
    PageIsNewest(parts, range, before);
    var page := PageAt(parts, range, before);
    if page.next.None? {
      pages := [page];
    } else {
      CursorLeavesRest(parts, range, before);
      var rest := PagesEnd(parts, range, page.next);
      pages := [page] + rest;
    }
  }

  // ----- over every run of the ledger

  lemma {:induction false} NumbersFollow(events: seq<Event>, i: nat, j: nat)
    requires LedgerRuns.ChainKept(events) && i <= j < |events|
    ensures events[j].content.seqNo == events[i].content.seqNo + (j - i)
    decreases j
  {
    if i < j {
      NumbersFollow(events, i, j - 1);
      assert LedgerRuns.Follows(events[j - 1], events[j]);
    }
  }

  lemma RunsRise(actions: seq<LedgerRuns.Action>)
    ensures Rising(Readable(Lines(LedgerRuns.Run(LedgerRuns.START, actions).trail.parts)))
  {
    LedgerRuns.RunKeeps(LedgerRuns.START, actions);
    var events := Readable(Lines(LedgerRuns.Run(LedgerRuns.START, actions).trail.parts));
    forall i, j | 0 <= i < j < |events| ensures events[i].content.seqNo < events[j].content.seqNo {
      NumbersFollow(events, i, j);
    }
  }

  lemma RangeWithoutEnds(parts: seq<Part>)
    ensures Chosen(parts, Range(None, None)) == Readable(Lines(parts))
  {
    if parts != [] {
      RangeWithoutEnds(parts[1..]);
      LedgerRuns.ReadableConcat(parts[0].lines, Lines(parts[1..]));
    }
  }

  /** On the trail of any run, crashes and half-done work included, the console's pages list
      every readable event exactly once, newest first. */
  lemma PagesOverRuns(actions: seq<LedgerRuns.Action>, pages: seq<Page>)
    requires Followed(LedgerRuns.Run(LedgerRuns.START, actions).trail.parts, Range(None, None), None, pages)
    ensures Shown(pages) == Backwards(Readable(Lines(LedgerRuns.Run(LedgerRuns.START, actions).trail.parts)))
    ensures forall i, j :: 0 <= i < j < |Shown(pages)| ==> Shown(pages)[i] != Shown(pages)[j]
  {
    var parts := LedgerRuns.Run(LedgerRuns.START, actions).trail.parts;
    RunsRise(actions);
    PagesShowAll(parts, Range(None, None), None, pages);
    RangeWithoutEnds(parts);
    BelowAll(Readable(Lines(parts)));
  }

  lemma {:induction false} BelowAll(events: seq<Event>)
    ensures Below(events, None) == events
  {
    if events != [] { BelowAll(events[1..]); }
  }

  /** The route takes only cursors above zero; every cursor it hands out is one. */
  lemma CursorIsAccepted(actions: seq<LedgerRuns.Action>, range: Range, before: Option<int>)
    ensures var page := PageAt(LedgerRuns.Run(LedgerRuns.START, actions).trail.parts, range, before);
            page.next.Some? ==> page.next.value > 0
  {
    var parts := LedgerRuns.Run(LedgerRuns.START, actions).trail.parts;
    var left := Below(Chosen(parts, range), before);
    RunsRise(actions);
    PageIsNewest(parts, range, before);
    if |left| > PAGE {
      var e := left[|left| - PAGE];
      BelowIn(Chosen(parts, range), before, e);
      ChosenIn(parts, range, e);
      LedgerRuns.RunKeeps(LedgerRuns.START, actions);
      assert LedgerRuns.Sealed(e);
    }
  }

  /** The range takes in both its days, and nothing else decides what is chosen. */
  lemma {:induction false} ChosenExactly(parts: seq<Part>, range: Range, e: Event)
    ensures e in Chosen(parts, range) <==>
            exists i :: && 0 <= i < |parts| && e in Readable(parts[i].lines)
                        && (range.first.Some? ==> range.first.value <= parts[i].day)
                        && (range.last.Some? ==> parts[i].day <= range.last.value)
  {
    if parts != [] {
      ChosenExactly(parts[1..], range, e);
      if i :| 0 <= i < |parts[1..]| && e in Readable(parts[1..][i].lines) && InRange(parts[1..][i].day, range) {
        assert parts[i + 1] == parts[1..][i];
      }
      if i :| 1 <= i < |parts| && e in Readable(parts[i].lines) && InRange(parts[i].day, range) {
        assert parts[1..][i - 1] == parts[i];
      }
    }
  }

  /** What a page of the trail of any run shows: of the events in the range and before the cursor
      the newest, newest first, a hundred of them or all there are; the cursor says that there are
      more. */
  lemma PageIsExact(actions: seq<LedgerRuns.Action>, range: Range, before: Option<int>)
    ensures var parts := LedgerRuns.Run(LedgerRuns.START, actions).trail.parts;
            var page := PageAt(parts, range, before);
            && |page.events| <= 100 && (page.next.Some? ==> |page.events| == 100)
            && (forall i, j :: 0 <= i < j < |page.events| ==> page.events[i].content.seqNo > page.events[j].content.seqNo)
            && (page.next.Some? ==> page.next.value == page.events[99].content.seqNo)
            && (forall e :: e in page.events ==> Wanted(parts, range, before, e))
            && (forall e :: Wanted(parts, range, before, e) && e !in page.events ==>
                  page.next.Some? && e.content.seqNo < page.next.value)
  {
    var parts := LedgerRuns.Run(LedgerRuns.START, actions).trail.parts;
    var left := Below(Chosen(parts, range), before);
    RunsRise(actions);
    PageIsNewest(parts, range, before);
    LeftRises(parts, range, before);
    NewestIsExact(left);
    forall e ensures Wanted(parts, range, before, e) <==> e in left {
      ChosenExactly(parts, range, e);
      BelowIn(Chosen(parts, range), before, e);
    }
  }

  lemma NewestIsExact(left: seq<Event>)
    requires Rising(left)
    ensures var page := NewestOf(left);
            && |page.events| <= 100 && (page.next.Some? ==> |page.events| == 100)
            && (forall i, j :: 0 <= i < j < |page.events| ==> page.events[i].content.seqNo > page.events[j].content.seqNo)
            && (page.next.Some? ==> page.next.value == page.events[99].content.seqNo)
            && (forall e :: e in page.events ==> e in left)
            && (forall e :: e in left && e !in page.events ==> page.next.Some? && e.content.seqNo < page.next.value)
  {
    var k := if |left| <= PAGE then 0 else |left| - PAGE;
    assert left[0..] == left;
    InBackwards(left, k);
    forall e | e in left[..k] ensures e.content.seqNo < left[k].content.seqNo {
      var i :| 0 <= i < k && left[i] == e;
    }
  }

  lemma InBackwards(left: seq<Event>, k: nat)
    requires k <= |left|
    ensures forall e :: e in Backwards(left[k..]) ==> e in left
    ensures forall e :: e in left && e !in Backwards(left[k..]) ==> e in left[..k]
  {
    var shown := Backwards(left[k..]);
    forall i | k <= i < |left| ensures left[i] in shown {
      assert shown[|left| - 1 - i] == left[i];
    }
  }

  /** The event is readable in a partition of the range and older than the cursor. */
  ghost predicate Wanted(parts: seq<Part>, range: Range, before: Option<int>, e: Event) {
    && (before.Some? ==> e.content.seqNo < before.value)
    && exists i :: && 0 <= i < |parts| && e in Readable(parts[i].lines)
                   && (range.first.Some? ==> range.first.value <= parts[i].day)
                   && (range.last.Some? ==> parts[i].day <= range.last.value)
  }
}
