/** The retention loop over whole runs (scripts/retention_loop.py): inserts, cycles, cycles that fail after
    some committed pages, and restarts, in any order. */
module RetentionRuns {
  import opened Wrappers
  import opened Retention

  /** `horizon` is the latest cutoff so far; `writes` are the ids rewritten so far, oldest first. */
  datatype State = State(table: seq<Row>, watermark: Option<Time>, writes: seq<AuctionId>, horizon: Time)

  datatype Event =
    | Insert(row: Row)
    | Cycle(cutoff: Time, batch: nat, sols: Solutions)
      // The page after `pages` committed ones raises: its work is rolled back and the watermark is not returned.
    | Failure(cutoff: Time, batch: nat, sols: Solutions, pages: nat)
    | Restart

  ghost predicate Fresh(table: seq<Row>, row: Row) {
    forall i :: 0 <= i < |table| ==> table[i].polledAt != row.polledAt && table[i].auctionId != row.auctionId
  }

  /** A poll stamps its row with the present, which no cutoff has reached; cutoffs follow the clock. */
  ghost predicate Legal(s: State, e: Event) {
    match e
    case Insert(row) => row.polledAt >= s.horizon && Fresh(s.table, row)
    case Cycle(cutoff, _, _) => cutoff >= s.horizon
    case Failure(cutoff, _, _, pages) => cutoff >= s.horizon && pages < MAX_PAGES_PER_CYCLE
    case Restart => true
  }

  function InsertAt(table: seq<Row>, p: nat, row: Row): (t: seq<Row>)
    requires p <= |table|
    ensures |t| == |table| + 1
  {
    seq(|table| + 1, j requires 0 <= j <= |table| => if j < p then table[j] else if j == p then row else table[j - 1])
  }

  /** The row at its place in time order. */
  function Placed(table: seq<Row>, row: Row): seq<Row> {
    InsertAt(table, Aged(table, row.polledAt), row)
  }

  /** Where a cycle stops, or the last committed page of a failed one. */
  function Stop(s: State, cutoff: Time, batch: nat, pages: nat): (hi: nat)
    ensures Passed(s.table, s.watermark) <= hi <= |s.table|
  {
    CycleEnd(s.table, Passed(s.table, s.watermark), Aged(s.table, cutoff), batch, 0, pages)
  }

  function Swept(s: State, cutoff: Time, sols: Solutions, hi: nat): State
    requires Passed(s.table, s.watermark) <= hi <= |s.table|
  {
    var lo := Passed(s.table, s.watermark);
    State(SlimRange(s.table, lo, hi, sols), WatermarkAt(s.table, lo, hi, s.watermark),
          s.writes + PendingIds(s.table, lo, hi), cutoff)
  }

  function Step(s: State, e: Event): State {
    match e
    case Insert(row) => s.(table := Placed(s.table, row))
    case Cycle(cutoff, batch, sols) => Swept(s, cutoff, sols, Stop(s, cutoff, batch, MAX_PAGES_PER_CYCLE))
    case Failure(cutoff, batch, sols, pages) =>
      Swept(s, cutoff, sols, Stop(s, cutoff, batch, pages)).(watermark := s.watermark)
    case Restart => s.(watermark := None)
  }

  function Run(s: State, events: seq<Event>): State
    decreases events
  {
    if events == [] then s else Run(Step(s, events[0]), events[1..])
  }

  ghost predicate LegalRun(s: State, events: seq<Event>)
    decreases events
  {
    events == [] || (Legal(s, events[0]) && LegalRun(Step(s, events[0]), events[1..]))
  }

  // ---- the invariant --------------------------------------------------------------------------------

  ghost predicate NoDuplicates(ids: seq<AuctionId>) {
    forall i, j :: 0 <= i < j < |ids| ==> ids[i] != ids[j]
  }

  /** The row with this id is there and needs no rewrite. */
  ghost predicate Settled(table: seq<Row>, id: AuctionId) {
    exists i :: 0 <= i < |table| && table[i].auctionId == id && !Pending(table[i])
  }

  ghost predicate SettledBelow(table: seq<Row>, watermark: Option<Time>) {
    forall i :: 0 <= i < |table| && !Above(table[i], watermark) ==> !Pending(table[i])
  }

  ghost predicate Inv(s: State) {
    && Sorted(s.table) && UniqueIds(s.table)
    && (s.watermark.Some? ==> s.watermark.value < s.horizon)
    && SettledBelow(s.table, s.watermark)
    && NoDuplicates(s.writes)
    && forall k :: 0 <= k < |s.writes| ==> Settled(s.table, s.writes[k])
  }

  // ---- inserts --------------------------------------------------------------------------------------

  /** The new place of an old row. */
  function Shifted(p: nat, i: nat): nat {
    if i < p then i else i + 1
  }

  lemma InsertedOrder(table: seq<Row>, p: nat, row: Row)
    requires Sorted(table) && UniqueIds(table) && Fresh(table, row) && p <= |table|
    requires forall i :: 0 <= i < |table| ==> (i < p <==> table[i].polledAt < row.polledAt)
    ensures Sorted(InsertAt(table, p, row)) && UniqueIds(InsertAt(table, p, row))
  {
  }

  lemma SettledStays(table: seq<Row>, p: nat, row: Row, id: AuctionId)
    requires Settled(table, id) && p <= |table|
    ensures Settled(InsertAt(table, p, row), id)
  {
    var i: nat :| i < |table| && table[i].auctionId == id && !Pending(table[i]);
    assert InsertAt(table, p, row)[Shifted(p, i)] == table[i];
  }

  lemma InsertedAbove(table: seq<Row>, p: nat, row: Row, watermark: Option<Time>)
    requires SettledBelow(table, watermark) && p <= |table| && Above(row, watermark)
    ensures SettledBelow(InsertAt(table, p, row), watermark)
  {
  }

  lemma InsertKeepsInv(s: State, row: Row)
    requires Inv(s) && Legal(s, Insert(row))
    ensures Inv(Step(s, Insert(row)))
  {
    var p := Aged(s.table, row.polledAt);
    AgedIsPrefix(s.table, row.polledAt);
    InsertedOrder(s.table, p, row);
    InsertedAbove(s.table, p, row, s.watermark);
    forall k | 0 <= k < |s.writes| ensures Settled(InsertAt(s.table, p, row), s.writes[k]) {
      SettledStays(s.table, p, row, s.writes[k]);
    }
  }

  // ---- sweeps ---------------------------------------------------------------------------------------

  lemma {:induction false} PendingIdsExact(table: seq<Row>, lo: nat, hi: nat, id: AuctionId)
    requires lo <= hi <= |table|
    ensures id in PendingIds(table, lo, hi) <==> exists i :: lo <= i < hi && Pending(table[i]) && table[i].auctionId == id
    decreases hi - lo
  {
    if lo < hi {
      PendingIdsExact(table, lo, hi - 1, id);
    }
  }

  lemma {:induction false} PendingIdsDistinct(table: seq<Row>, lo: nat, hi: nat)
    requires lo <= hi <= |table| && UniqueIds(table)
    ensures NoDuplicates(PendingIds(table, lo, hi))
    decreases hi - lo
  {
    if lo < hi {
      PendingIdsDistinct(table, lo, hi - 1);
      if Pending(table[hi - 1]) {
        PendingIdsExact(table, lo, hi - 1, table[hi - 1].auctionId);
      }
    }
  }

  /** No id is written a second time: what a sweep rewrites was pending, what was written is settled. */
  lemma {:induction false} WritesStayDistinct(s: State, hi: nat)
    requires Inv(s) && Passed(s.table, s.watermark) <= hi <= |s.table|
    ensures NoDuplicates(s.writes + PendingIds(s.table, Passed(s.table, s.watermark), hi))
  {
    var lo := Passed(s.table, s.watermark);
    PendingIdsDistinct(s.table, lo, hi);
    forall i, j | 0 <= i < |s.writes| && 0 <= j < |PendingIds(s.table, lo, hi)|
      ensures s.writes[i] != PendingIds(s.table, lo, hi)[j] {
      PendingIdsExact(s.table, lo, hi, PendingIds(s.table, lo, hi)[j]);
      assert Settled(s.table, s.writes[i]);
    }
  }

  lemma {:induction false} SweepSettles(table: seq<Row>, lo: nat, hi: nat, sols: Solutions, id: AuctionId)
    requires lo <= hi <= |table| && (Settled(table, id) || id in PendingIds(table, lo, hi))
    ensures Settled(SlimRange(table, lo, hi, sols), id)
  {
    PendingIdsExact(table, lo, hi, id);
    if Settled(table, id) {
      var i :| 0 <= i < |table| && table[i].auctionId == id && !Pending(table[i]);
      assert SlimRange(table, lo, hi, sols)[i] == table[i];
    } else {
      var i :| lo <= i < hi && Pending(table[i]) && table[i].auctionId == id;
      assert SlimRange(table, lo, hi, sols)[i] == Slim(table[i], sols);
    }
  }

  /** Everything up to where a sweep stopped is settled. */
  lemma SweptPrefix(s: State, hi: nat, sols: Solutions)
    requires Inv(s) && Passed(s.table, s.watermark) <= hi <= |s.table|
    ensures var t := SlimRange(s.table, Passed(s.table, s.watermark), hi, sols);
            forall i :: 0 <= i < hi ==> !Pending(t[i])
  {
    PassedIsPrefix(s.table, s.watermark);
  }

  /** After a sweep the watermark stands at the position where it stopped. */
  lemma SweptPosition(s: State, cutoff: Time, sols: Solutions, hi: nat)
    requires Inv(s) && Passed(s.table, s.watermark) <= hi <= |s.table|
    ensures Passed(Swept(s, cutoff, sols, hi).table, Swept(s, cutoff, sols, hi).watermark) == hi
  {
    var lo := Passed(s.table, s.watermark);
    var s' := Swept(s, cutoff, sols, hi);
    SlimKeepsKeys(s.table, lo, hi, sols);
    SameCounts(s.table, s'.table, |s.table|, s'.watermark, cutoff);
    PassedAt(s.table, lo, hi, s.watermark);
  }

  lemma SweepKeepsInv(s: State, cutoff: Time, batch: nat, sols: Solutions, pages: nat)
    requires Inv(s) && cutoff >= s.horizon
    ensures Inv(Swept(s, cutoff, sols, Stop(s, cutoff, batch, pages)))
  {
    var lo, hi := Passed(s.table, s.watermark), Stop(s, cutoff, batch, pages);
    var s' := Swept(s, cutoff, sols, hi);
    SlimKeepsKeys(s.table, lo, hi, sols);
    WritesStayDistinct(s, hi);
    forall k | 0 <= k < |s'.writes| ensures Settled(s'.table, s'.writes[k]) {
      SweepSettles(s.table, lo, hi, sols, s'.writes[k]);
    }
    WatermarkBelowCutoff(s, cutoff, batch, pages);
    SweptPrefix(s, hi, sols);
    SweptPosition(s, cutoff, sols, hi);
    PassedIsPrefix(s'.table, s'.watermark);
  }

  lemma WatermarkBelowCutoff(s: State, cutoff: Time, batch: nat, pages: nat)
    requires Inv(s) && cutoff >= s.horizon
    ensures var w := WatermarkAt(s.table, Passed(s.table, s.watermark), Stop(s, cutoff, batch, pages), s.watermark);
            w.Some? ==> w.value < cutoff
  {
    var lo, hi := Passed(s.table, s.watermark), Stop(s, cutoff, batch, pages);
    if batch == 0 {
      EmptyPages(s.table, lo, Aged(s.table, cutoff), pages);
    } else {
      CycleReach(s.table, lo, Aged(s.table, cutoff), batch, 0, pages);
    }
    AgedIsPrefix(s.table, cutoff);
    if lo < hi {
      assert hi - 1 < Aged(s.table, cutoff);
    }
  }

  /** A batch of zero moves nothing. */
  lemma {:induction false} EmptyPages(table: seq<Row>, lo: nat, aged: nat, pages: nat)
    requires lo <= |table| && aged <= |table|
    ensures CycleEnd(table, lo, aged, 0, 0, pages) == lo
  {
  }

  /** Taking the watermark back only widens what the next cycle scans. */
  lemma OlderWatermark(s: State, watermark: Option<Time>)
    requires Inv(s)
    requires watermark.Some? ==> s.watermark.Some? && watermark.value <= s.watermark.value
    ensures Inv(s.(watermark := watermark))
  {
  }

  lemma WatermarkAdvances(s: State, hi: nat)
    requires Inv(s) && Passed(s.table, s.watermark) <= hi <= |s.table| && s.watermark.Some?
    ensures var w := WatermarkAt(s.table, Passed(s.table, s.watermark), hi, s.watermark);
            w.Some? && s.watermark.value <= w.value
  {
    PassedIsPrefix(s.table, s.watermark);
    var lo := Passed(s.table, s.watermark);
    if lo < hi {
      assert Above(s.table[hi - 1], s.watermark);
    }
  }

  /** Every legal event keeps the invariant. */
  lemma StepKeepsInv(s: State, e: Event)
    requires Inv(s) && Legal(s, e)
    ensures Inv(Step(s, e))
  {
    match e
    case Insert(row) =>
      InsertKeepsInv(s, row);
    case Cycle(cutoff, batch, sols) =>
      SweepKeepsInv(s, cutoff, batch, sols, MAX_PAGES_PER_CYCLE);
    case Failure(cutoff, batch, sols, pages) =>
      SweepKeepsInv(s, cutoff, batch, sols, pages);
      var hi := Stop(s, cutoff, batch, pages);
      if s.watermark.Some? {
        WatermarkAdvances(s, hi);
      }
      OlderWatermark(Swept(s, cutoff, sols, hi), s.watermark);
    case Restart =>
      OlderWatermark(s, None);
  }

  /** Over any run, rows at or below the watermark are malformed or retained, and no row is rewritten twice. */
  lemma {:induction false} RunKeepsInv(s: State, events: seq<Event>)
    requires Inv(s) && LegalRun(s, events)
    ensures Inv(Run(s, events))
    decreases events
  {
    if events != [] {
      StepKeepsInv(s, events[0]);
      RunKeepsInv(Step(s, events[0]), events[1..]);
    }
  }

  // ---- what becomes of a row ------------------------------------------------------------------------

  predicate Sweeps(e: Event, r: Row) {
    (e.Cycle? || e.Failure?) && r.polledAt < e.cutoff
  }

  /** The row as it was, or slimmed by this event with the solutions it read. */
  ghost predicate After(r: Row, r': Row, e: Event) {
    r' == r || (Pending(r) && Sweeps(e, r) && RowSlimmed(r, r', e.sols))
  }

  lemma SweptRow(s: State, i: nat, cutoff: Time, batch: nat, sols: Solutions, pages: nat)
    requires Inv(s) && i < |s.table|
    ensures var t := SlimRange(s.table, Passed(s.table, s.watermark), Stop(s, cutoff, batch, pages), sols);
            t[i] == s.table[i] || (Pending(s.table[i]) && s.table[i].polledAt < cutoff && RowSlimmed(s.table[i], t[i], sols))
  {
    var lo := Passed(s.table, s.watermark);
    if batch == 0 {
      EmptyPages(s.table, lo, Aged(s.table, cutoff), pages);
    } else {
      CycleReach(s.table, lo, Aged(s.table, cutoff), batch, 0, pages);
    }
    AgedIsPrefix(s.table, cutoff);
    SlimRangeExact(s.table, lo, Stop(s, cutoff, batch, pages), sols);
  }

  lemma RowAfterStep(s: State, e: Event, i: nat) returns (j: nat)
    requires Inv(s) && Legal(s, e) && i < |s.table|
    ensures j < |Step(s, e).table| && After(s.table[i], Step(s, e).table[j], e)
  {
    j := i;
    match e
    case Insert(row) =>
      j := Shifted(Aged(s.table, row.polledAt), i);
    case Cycle(cutoff, batch, sols) =>
      SweptRow(s, i, cutoff, batch, sols, MAX_PAGES_PER_CYCLE);
    case Failure(cutoff, batch, sols, pages) =>
      SweptRow(s, i, cutoff, batch, sols, pages);
    case Restart =>
  }

  /** No row is lost. A row ends as it was, or slimmed exactly once: by a cycle whose cutoff had passed it, and down to the
      orders that the solutions stored at that moment reference. So no row younger than every cutoff changes. */
  lemma {:induction false} RowAfterRun(s: State, events: seq<Event>, i: nat) returns (j: nat, k: nat)
    requires Inv(s) && LegalRun(s, events) && i < |s.table|
    ensures j < |Run(s, events).table|
    ensures Run(s, events).table[j] == s.table[i]
            || (k < |events| && s.table[i].raw.Some? && !s.table[i].raw.value.retained
                && Sweeps(events[k], s.table[i]) && RowSlimmed(s.table[i], Run(s, events).table[j], events[k].sols))
    decreases events
  {
    if events == [] {
      return i, 0;
    }
    var e := events[0];
    StepKeepsInv(s, e);
    var m := RowAfterStep(s, e, i);
    j, k := RowAfterRun(Step(s, e), events[1..], m);
    if Step(s, e).table[m] == s.table[i] {
      k := k + 1;
    } else {
      k := 0;
    }
  }

  // ---- how much a cycle does ------------------------------------------------------------------------

  /** One event rewrites fewer rows than two batches, and leaves every earlier write in place. */
  lemma StepRewrites(s: State, e: Event)
    requires Inv(s) && Legal(s, e)
    ensures s.writes <= Step(s, e).writes
    ensures (e.Cycle? || e.Failure?) && e.batch > 0 ==> |Step(s, e).writes| - |s.writes| <= 2 * e.batch - 1
  {
    if (e.Cycle? || e.Failure?) && e.batch > 0 {
      var pages := if e.Cycle? then MAX_PAGES_PER_CYCLE else e.pages;
      RewritesBounded(s.table, Passed(s.table, s.watermark), Aged(s.table, e.cutoff), e.batch, 0, pages);
    }
  }

  /** How many rows older than `cutoff` the watermark has yet to pass. */
  function Backlog(s: State, cutoff: Time): nat {
    var lo, aged := Passed(s.table, s.watermark), Aged(s.table, cutoff);
    if aged <= lo then 0 else aged - lo
  }

  /** A cycle takes a full batch off the backlog or clears it. */
  lemma CycleProgress(s: State, e: Event, cutoff: Time, least: nat)
    requires Inv(s) && e.Cycle? && Legal(s, e) && e.cutoff >= cutoff && e.batch >= least > 0
    ensures Backlog(Step(s, e), cutoff) == 0 || Backlog(Step(s, e), cutoff) + least <= Backlog(s, cutoff)
  {
    var lo, hi := Passed(s.table, s.watermark), Stop(s, e.cutoff, e.batch, MAX_PAGES_PER_CYCLE);
    CycleReach(s.table, lo, Aged(s.table, e.cutoff), e.batch, 0, MAX_PAGES_PER_CYCLE);
    CountBounded(s.table, lo, hi);
    SweptPosition(s, e.cutoff, e.sols, hi);
    SlimKeepsKeys(s.table, lo, hi, e.sols);
    SameCounts(s.table, Step(s, e).table, |s.table|, s.watermark, cutoff);
    AgedGrows(s.table, |s.table|, cutoff, e.cutoff);
  }

  lemma {:induction false} AgedGrows(table: seq<Row>, n: nat, cutoff: Time, later: Time)
    requires cutoff <= later && n <= |table|
    ensures AgedTo(table, n, cutoff) <= AgedTo(table, n, later)
  {
    if n > 0 {
      AgedGrows(table, n - 1, cutoff, later);
    }
  }

  /** With no backlog every row older than the cutoff is settled. */
  lemma NoBacklogSettled(s: State, cutoff: Time)
    requires Inv(s) && Backlog(s, cutoff) == 0
    ensures forall i :: 0 <= i < |s.table| && s.table[i].polledAt < cutoff ==> !Pending(s.table[i])
  {
    AgedIsPrefix(s.table, cutoff);
    PassedIsPrefix(s.table, s.watermark);
  }

  /** A new row joins behind every row that some cutoff has reached, and above the watermark. */
  lemma InsertKeepsBacklog(s: State, row: Row, cutoff: Time)
    requires Inv(s) && Legal(s, Insert(row)) && cutoff <= s.horizon
    ensures Backlog(Step(s, Insert(row)), cutoff) == Backlog(s, cutoff)
  {
    var p, n := Aged(s.table, row.polledAt), |s.table|;
    InsertedCounts(s.table, p, row, n, s.watermark, cutoff);
  }

  lemma {:induction false} PrefixCounts(table: seq<Row>, other: seq<Row>, n: nat, watermark: Option<Time>, cutoff: Time)
    requires n <= |table| && n <= |other| && forall i :: 0 <= i < n ==> table[i] == other[i]
    ensures PassedTo(table, n, watermark) == PassedTo(other, n, watermark) && AgedTo(table, n, cutoff) == AgedTo(other, n, cutoff)
  {
    if n > 0 {
      PrefixCounts(table, other, n - 1, watermark, cutoff);
    }
  }

  /** A row above the watermark and not yet aged counts for nothing. */
  lemma {:induction false} InsertedCounts(table: seq<Row>, p: nat, row: Row, n: nat, watermark: Option<Time>, cutoff: Time)
    requires p <= n <= |table| && row.polledAt >= cutoff && Above(row, watermark)
    ensures PassedTo(InsertAt(table, p, row), n + 1, watermark) == PassedTo(table, n, watermark)
    ensures AgedTo(InsertAt(table, p, row), n + 1, cutoff) == AgedTo(table, n, cutoff)
  {
    if n == p {
      PrefixCounts(table, InsertAt(table, p, row), p, watermark, cutoff);
    } else {
      InsertedCounts(table, p, row, n - 1, watermark, cutoff);
    }
  }

  /** A cycle that raises leaves the backlog alone, as its watermark is lost. */
  lemma FailureKeepsBacklog(s: State, e: Event, cutoff: Time)
    requires Inv(s) && e.Failure? && Legal(s, e)
    ensures Backlog(Step(s, e), cutoff) == Backlog(s, cutoff)
  {
    var lo, hi := Passed(s.table, s.watermark), Stop(s, e.cutoff, e.batch, e.pages);
    SlimKeepsKeys(s.table, lo, hi, e.sols);
    SameCounts(s.table, Step(s, e).table, |s.table|, s.watermark, cutoff);
  }

  /** How many of the events are cycles that come back. */
  function CyclesIn(events: seq<Event>): nat {
    if events == [] then 0 else (if events[0].Cycle? then 1 else 0) + CyclesIn(events[1..])
  }

  /** One event of a process lifetime does not grow the backlog below a cutoff already reached. */
  lemma StepBacklog(s: State, e: Event, cutoff: Time, least: nat)
    requires Inv(s) && Legal(s, e) && !e.Restart? && cutoff <= s.horizon && least > 0
    requires e.Cycle? ==> e.batch >= least
    ensures cutoff <= Step(s, e).horizon
    ensures Backlog(Step(s, e), cutoff) == 0
            || Backlog(Step(s, e), cutoff) + (if e.Cycle? then 1 else 0) * least <= Backlog(s, cutoff)
  {
    match e
    case Insert(row) => InsertKeepsBacklog(s, row, cutoff);
    case Cycle(_, _, _) => CycleProgress(s, e, cutoff, least);
    case Failure(_, _, _, _) => FailureKeepsBacklog(s, e, cutoff);
  }

  /** The backlog drains, whatever rows arrive meanwhile and whichever cycles raise: once enough cycles have come
      back, every row older than a cutoff reached at the start is malformed or retained. */
  lemma {:induction false} CyclesDrain(s: State, events: seq<Event>, cutoff: Time, least: nat)
    requires Inv(s) && LegalRun(s, events) && least > 0 && cutoff <= s.horizon
    requires forall k :: 0 <= k < |events| ==> !events[k].Restart? && (events[k].Cycle? ==> events[k].batch >= least)
    requires Backlog(s, cutoff) <= CyclesIn(events) * least
    ensures forall i :: 0 <= i < |Run(s, events).table| && Run(s, events).table[i].polledAt < cutoff
              ==> !Pending(Run(s, events).table[i])
    decreases events
  {
    if events == [] {
      NoBacklogSettled(s, cutoff);
    } else {
      var e := events[0];
      StepKeepsInv(s, e);
      StepBacklog(s, e, cutoff, least);
      CountDown(Backlog(s, cutoff), Backlog(Step(s, e), cutoff), CyclesIn(events[1..]), if e.Cycle? then 1 else 0, least);
      CyclesDrain(Step(s, e), events[1..], cutoff, least);
    }
  }

  lemma CountDown(before: nat, after: nat, rest: nat, one: nat, least: nat)
    requires before <= (one + rest) * least && (after == 0 || after + one * least <= before)
    ensures after <= rest * least
  {
    assert (one + rest) * least == one * least + rest * least;
  }

  lemma {:induction false} RunSplits(s: State, first: seq<Event>, more: seq<Event>)
    ensures Run(s, first + more) == Run(Run(s, first), more)
    decreases first
  {
    if first == [] {
      assert first + more == more;
    } else {
      assert (first + more)[1..] == first[1..] + more;
      RunSplits(Step(s, first[0]), first[1..], more);
    }
  }

  /** A run across a restart is two lifetimes: the second starts from what the first left in the table, and without a
      watermark. */
  lemma {:induction false} LifetimesJoin(s: State, first: seq<Event>, more: seq<Event>)
    ensures var left := Run(s, first);
            Run(s, first + [Restart] + more) == Run(State(left.table, None, left.writes, left.horizon), more)
  {
    RunSplits(s, first + [Restart], more);
    RunSplits(s, first, [Restart]);
    assert [Restart][1..] == [];
    assert Run(Run(s, first), [Restart]) == Step(Run(s, first), Restart);
  }

  // ---- the loop -------------------------------------------------------------------------------------

  /** Turns of the loop: cycles that come back, and cycles that raise. */
  predicate IsTurn(e: Event) {
    e.Cycle? || e.Failure?
  }

  /** `loop`, for the turns of one process lifetime: it starts without a watermark and passes each cycle the
      watermark of the one before; a cycle that raises is caught, and leaves the old watermark in place. */
  method Loop(store: ShadowStore, ghost horizon: Time, turns: seq<Event>) returns (watermark: Option<Time>, ghost last: Time)
    requires Inv(State(store.table, None, store.writes, horizon))
    requires forall k :: 0 <= k < |turns| ==> IsTurn(turns[k])
    requires LegalRun(State(store.table, None, store.writes, horizon), turns)
    modifies store
    ensures State(store.table, watermark, store.writes, last)
         == Run(State(old(store.table), None, old(store.writes), horizon), turns)
    ensures Inv(State(store.table, watermark, store.writes, last))
  {
    ghost var first := State(store.table, None, store.writes, horizon);
    watermark, last := None, horizon;
    assert turns[0..] == turns;
    for k := 0 to |turns|
      invariant Inv(State(store.table, watermark, store.writes, last))
      invariant LegalRun(State(store.table, watermark, store.writes, last), turns[k..])
      invariant Run(State(store.table, watermark, store.writes, last), turns[k..]) == Run(first, turns)
    {
      ghost var now := State(store.table, watermark, store.writes, last);
      var e := turns[k];
      assert turns[k..][0] == e && turns[k..][1..] == turns[k + 1..];
      StepKeepsInv(now, e);
      watermark := RunTurn(store, watermark, last, e);
      last := e.cutoff;
    }
  }

  /** One turn. */
  method RunTurn(store: ShadowStore, watermark: Option<Time>, ghost horizon: Time, e: Event) returns (watermark': Option<Time>)
    requires IsTurn(e) && Inv(State(store.table, watermark, store.writes, horizon))
    modifies store
    ensures State(store.table, watermark', store.writes, e.cutoff)
         == Step(State(old(store.table), watermark, old(store.writes), horizon), e)
  {
    if e.Cycle? {
      var stats;
      stats, watermark' := store.RunCycle(e.batch, watermark, e.cutoff, e.sols);
    } else {
      var stats, lost := store.RunPages(e.batch, watermark, e.cutoff, e.sols, e.pages);
      watermark' := watermark;
    }
  }
}
