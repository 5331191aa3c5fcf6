/** Slimming aged auction rows (scripts/retention_loop.py): each cycle pages through the rows above an
    in-memory watermark and rewrites those not yet retained. Instants are naturals. */
module Retention {
  import opened Wrappers
  import opened Sequences
  import opened V3Path

  type Time = nat
  type AuctionId = nat

  /** An element of a payload's orders; a missing uid reads as the empty string. */
  datatype OrderItem = Item(uid: string, body: string) | NotADict

  /** A parsed payload: its orders when they are a list, the marker, and everything else. */
  datatype Payload = Payload(orders: Option<seq<OrderItem>>, retained: bool, others: string)

  /** None where the column does not parse to a dict. */
  datatype Row = Row(auctionId: AuctionId, polledAt: Time, raw: Option<Payload>)

  // ---- referenced uids ------------------------------------------------------------------------------

  /** A value under one of a trade's uid keys. Falsy values count as absent. */
  datatype UidValue = Absent | Text(text: string) | NotText

  /** A trade that is a dict, with its three possible uid keys in the order they are tried. */
  datatype StoredTrade = StoredTrade(order: UidValue, orderUid: UidValue, orderUidSnake: UidValue) | BadTrade

  /** None where the solution or its trades have the wrong shape. */
  type StoredSolution = Option<seq<StoredTrade>>

  predicate Truthy(v: UidValue) {
    v.NotText? || (v.Text? && v.text != "")
  }

  /** The uid of a trade, in lower case, when its first truthy key holds text. */
  function TradeUid(t: StoredTrade): Option<string> {
    if t.BadTrade? then None
    else
      var v := if Truthy(t.order) then t.order else if Truthy(t.orderUid) then t.orderUid else t.orderUidSnake;
      if v.Text? && v.text != "" then Some(Lower(v.text)) else None
  }

  predicate Blank(v: UidValue) {
    v == Absent || v == Text("")
  }

  ghost predicate Spells(v: UidValue, uid: string) {
    v.Text? && v.text != "" && Lower(v.text) == uid
  }

  /** The first of the trade's keys that is not blank holds this uid, in any case. */
  ghost predicate Names(t: StoredTrade, uid: string) {
    && t.StoredTrade?
    && (|| Spells(t.order, uid)
        || (Blank(t.order) && Spells(t.orderUid, uid))
        || (Blank(t.order) && Blank(t.orderUid) && Spells(t.orderUidSnake, uid)))
  }

  lemma TradeUidExact(t: StoredTrade, uid: string)
    ensures TradeUid(t) == Some(uid) <==> Names(t, uid)
  {
  }

  ghost predicate References(solutions: seq<StoredSolution>, uid: string) {
    exists i, j :: 0 <= i < |solutions| && solutions[i].Some? && 0 <= j < |solutions[i].value|
      && Names(solutions[i].value[j], uid)
  }

  /** `extract_referenced_uids`. */
  method ExtractReferencedUids(solutions: seq<StoredSolution>) returns (uids: set<string>)
    ensures uids == Referenced(solutions)
  {
    uids := {};
    for i := 0 to |solutions|
      invariant uids == Referenced(solutions[..i])
    {
      assert solutions[..i + 1][..i] == solutions[..i];
      if solutions[i].None? {
        continue;
      }
      var trades := solutions[i].value;
      ghost var before := uids;
      for j := 0 to |trades|
        invariant uids == before + TradeUids(trades[..j])
      {
        assert trades[..j + 1][..j] == trades[..j];
        var uid := TradeUid(trades[j]);
        if uid.Some? {
          uids := uids + {uid.value};
        }
      }
      assert trades[..|trades|] == trades;
    }
    assert solutions[..|solutions|] == solutions;
  }

  function TradeUids(trades: seq<StoredTrade>): set<string> {
    if trades == [] then {}
    else
      var uid := TradeUid(trades[|trades| - 1]);
      TradeUids(trades[..|trades| - 1]) + (if uid.Some? then {uid.value} else {})
  }

  function Referenced(solutions: seq<StoredSolution>): set<string> {
    if solutions == [] then {}
    else
      var s := solutions[|solutions| - 1];
      Referenced(solutions[..|solutions| - 1]) + (if s.Some? then TradeUids(s.value) else {})
  }

  lemma {:induction false} TradeUidsExact(trades: seq<StoredTrade>, uid: string)
    ensures uid in TradeUids(trades) <==> exists j :: 0 <= j < |trades| && Names(trades[j], uid)
  {
    if trades != [] {
      TradeUidsExact(trades[..|trades| - 1], uid);
      TradeUidExact(trades[|trades| - 1], uid);
    }
  }

  /** A uid is referenced exactly when some well-formed trade of some solution names it. */
  lemma {:induction false} ReferencedExact(solutions: seq<StoredSolution>, uid: string)
    ensures uid in Referenced(solutions) <==> References(solutions, uid)
  {
    if solutions != [] {
      var n := |solutions| - 1;
      ReferencedExact(solutions[..n], uid);
      if solutions[n].Some? {
        TradeUidsExact(solutions[n].value, uid);
      }
      forall i, j | 0 <= i < n && solutions[i].Some? && 0 <= j < |solutions[i].value|
          && Names(solutions[i].value[j], uid) ensures References(solutions[..n], uid) {
        assert solutions[..n][i] == solutions[i];
      }
      if References(solutions[..n], uid) {
        var i, j :| 0 <= i < n && solutions[..n][i].Some? && 0 <= j < |solutions[..n][i].value|
          && Names(solutions[..n][i].value[j], uid);
        assert solutions[i] == solutions[..n][i];
      }
    }
  }

  // ---- one row --------------------------------------------------------------------------------------

  predicate IsReferenced(o: OrderItem, referenced: set<string>) {
    o.Item? && Lower(o.uid) in referenced
  }

  function KeepReferenced(orders: seq<OrderItem>, referenced: set<string>): seq<OrderItem> {
    if orders == [] then []
    else
      var n := |orders| - 1;
      KeepReferenced(orders[..n], referenced) + (if IsReferenced(orders[n], referenced) then [orders[n]] else [])
  }

  /** `retain_row`. */
  function RetainRow(p: Payload, referenced: set<string>): Payload {
    p.(orders := if p.orders.Some? then Some(KeepReferenced(p.orders.value, referenced)) else None, retained := true)
  }

  /** The kept orders are the referenced ones, unchanged and in order: they sit at increasing positions of
      the original list, and every referenced position is among them. */
  ghost predicate KeptAt(orders: seq<OrderItem>, kept: seq<OrderItem>, at: seq<nat>, referenced: set<string>) {
    && |at| == |kept|
    && (forall k :: 0 <= k < |at| ==> at[k] < |orders| && orders[at[k]] == kept[k] && IsReferenced(kept[k], referenced))
    && (forall k, l :: 0 <= k < l < |at| ==> at[k] < at[l])
    && (forall i :: 0 <= i < |orders| && IsReferenced(orders[i], referenced) ==> i in at)
  }

  lemma KeptSkips(orders: seq<OrderItem>, kept: seq<OrderItem>, at: seq<nat>, referenced: set<string>)
    requires orders != [] && KeptAt(orders[..|orders| - 1], kept, at, referenced) && !IsReferenced(orders[|orders| - 1], referenced)
    ensures KeptAt(orders, kept, at, referenced)
  {
    var before := orders[..|orders| - 1];
    forall i | 0 <= i < |orders| && IsReferenced(orders[i], referenced) ensures i in at {
      assert orders[i] == before[i];
    }
  }

  lemma KeptTakes(orders: seq<OrderItem>, kept: seq<OrderItem>, at: seq<nat>, referenced: set<string>)
    requires orders != [] && KeptAt(orders[..|orders| - 1], kept, at, referenced) && IsReferenced(orders[|orders| - 1], referenced)
    ensures KeptAt(orders, kept + [orders[|orders| - 1]], at + [|orders| - 1], referenced)
  {
    var n := |orders| - 1;
    forall i | 0 <= i < |orders| && IsReferenced(orders[i], referenced) ensures i in at + [n] {
      if i < n {
        assert orders[i] == orders[..n][i];
      } else {
        assert (at + [n])[|at|] == i;
      }
    }
  }

  lemma {:induction false} KeepReferencedExact(orders: seq<OrderItem>, referenced: set<string>) returns (at: seq<nat>)
    ensures KeptAt(orders, KeepReferenced(orders, referenced), at, referenced)
  {
    if orders == [] {
      return [];
    }
    var n := |orders| - 1;
    at := KeepReferencedExact(orders[..n], referenced);
    if IsReferenced(orders[n], referenced) {
      KeptTakes(orders, KeepReferenced(orders[..n], referenced), at, referenced);
      at := at + [n];
    } else {
      KeptSkips(orders, KeepReferenced(orders[..n], referenced), at, referenced);
      assert KeepReferenced(orders, referenced) == KeepReferenced(orders[..n], referenced);
    }
  }

  /** Slimming twice, with the same or more references, changes nothing more. */
  lemma {:induction false} KeepAgain(orders: seq<OrderItem>, referenced: set<string>, more: set<string>)
    requires referenced <= more
    ensures KeepReferenced(KeepReferenced(orders, referenced), more) == KeepReferenced(orders, referenced)
  {
    if orders != [] {
      var n := |orders| - 1;
      KeepAgain(orders[..n], referenced, more);
      var before := KeepReferenced(orders[..n], referenced);
      if IsReferenced(orders[n], referenced) {
        assert (before + [orders[n]])[..|before|] == before;
      } else {
        assert KeepReferenced(orders, referenced) == before;
      }
    }
  }

  /** What a slimmed list keeps: exactly the items whose uid some solution references, in any case, unchanged and in order. */
  ghost predicate KeptPositions(orders: seq<OrderItem>, kept: seq<OrderItem>, at: seq<nat>, solutions: seq<StoredSolution>) {
    && PickedAt(orders, kept, at)
    && (forall i :: 0 <= i < |orders| ==> (i in at <==> orders[i].Item? && References(solutions, Lower(orders[i].uid))))
  }

  ghost predicate SlimmedTo(p: Payload, p': Payload, solutions: seq<StoredSolution>) {
    && p'.retained && p'.others == p.others && (p'.orders.Some? <==> p.orders.Some?)
    && (p.orders.Some? ==> exists at :: KeptPositions(p.orders.value, p'.orders.value, at, solutions))
  }

  /** The row has lost the orders that no stored solution of its auction references, and nothing else. */
  ghost predicate RowSlimmed(r: Row, r': Row, sols: Solutions) {
    && r'.auctionId == r.auctionId && r'.polledAt == r.polledAt && r.raw.Some? && r'.raw.Some?
    && SlimmedTo(r.raw.value, r'.raw.value, if r.auctionId in sols then sols[r.auctionId] else [])
  }

  /** The rows from `lo` to `hi` that parse and carry no marker are slimmed; every other row is as it was. */
  ghost predicate RowsSlimmed(start: seq<Row>, table: seq<Row>, lo: nat, hi: nat, sols: Solutions) {
    && |table| == |start|
    && forall i :: 0 <= i < |start| ==>
         if lo <= i < hi && start[i].raw.Some? && !start[i].raw.value.retained then RowSlimmed(start[i], table[i], sols)
         else table[i] == start[i]
  }

  lemma {:induction false} RetainRowExact(p: Payload, solutions: seq<StoredSolution>)
    ensures SlimmedTo(p, RetainRow(p, Referenced(solutions)), solutions)
  {
    if p.orders.Some? {
      var orders, referenced := p.orders.value, Referenced(solutions);
      var at := KeepReferencedExact(orders, referenced);
      forall i | 0 <= i < |orders|
        ensures i in at <==> orders[i].Item? && References(solutions, Lower(orders[i].uid))
      {
        if orders[i].Item? {
          ReferencedExact(solutions, Lower(orders[i].uid));
        }
      }
      assert KeptPositions(orders, KeepReferenced(orders, referenced), at, solutions);
    }
  }

  lemma {:induction false} SlimExact(r: Row, sols: Solutions)
    requires Pending(r)
    ensures RowSlimmed(r, Slim(r, sols), sols)
  {
    RetainRowExact(r.raw.value, SolutionsOf(sols, r.auctionId));
  }

  lemma {:induction false} SlimRangeExact(start: seq<Row>, lo: nat, hi: nat, sols: Solutions)
    ensures RowsSlimmed(start, SlimRange(start, lo, hi, sols), lo, hi, sols)
  {
    forall i | 0 <= i < |start| && Pending(start[i]) ensures RowSlimmed(start[i], Slim(start[i], sols), sols) {
      SlimExact(start[i], sols);
    }
  }

  // ---- one cycle ------------------------------------------------------------------------------------

  type Solutions = map<AuctionId, seq<StoredSolution>>

  function SolutionsOf(sols: Solutions, id: AuctionId): seq<StoredSolution> {
    if id in sols then sols[id] else []
  }

  /** The row still has to be slimmed. */
  predicate Pending(r: Row) {
    r.raw.Some? && !r.raw.value.retained
  }

  function Slim(r: Row, sols: Solutions): Row {
    if Pending(r) then r.(raw := Some(RetainRow(r.raw.value, Referenced(SolutionsOf(sols, r.auctionId))))) else r
  }

  /** The table with rows `lo` to `hi` slimmed. */
  function SlimRange(table: seq<Row>, lo: nat, hi: nat, sols: Solutions): (t: seq<Row>)
    ensures |t| == |table|
  {
    seq(|table|, i requires 0 <= i < |table| => if lo <= i < hi then Slim(table[i], sols) else table[i])
  }

  ghost predicate Sorted(table: seq<Row>) {
    forall i, j :: 0 <= i < j < |table| ==> table[i].polledAt < table[j].polledAt
  }

  ghost predicate UniqueIds(table: seq<Row>) {
    forall i, j :: 0 <= i < j < |table| ==> table[i].auctionId != table[j].auctionId
  }

  predicate Above(r: Row, watermark: Option<Time>) {
    watermark.Some? ==> r.polledAt > watermark.value
  }

  /** The page query: aged rows above the watermark, oldest first, at most `limit` of them. */
  function Query(table: seq<Row>, cutoff: Time, watermark: Option<Time>, limit: nat): seq<Row> {
    QueryTo(table, |table|, cutoff, watermark, limit)
  }

  /** The same query over the first `n` rows. */
  function QueryTo(table: seq<Row>, n: nat, cutoff: Time, watermark: Option<Time>, limit: nat): seq<Row>
    requires n <= |table|
    decreases n
  {
    if n == 0 then []
    else
      var before := QueryTo(table, n - 1, cutoff, watermark, limit);
      var r := table[n - 1];
      if r.polledAt < cutoff && Above(r, watermark) && |before| < limit then before + [r] else before
  }

  /** How many of the first `n` rows are at or below the watermark. */
  function PassedTo(table: seq<Row>, n: nat, watermark: Option<Time>): (k: nat)
    requires n <= |table|
    ensures k <= n
    decreases n
  {
    if n == 0 then 0 else PassedTo(table, n - 1, watermark) + (if Above(table[n - 1], watermark) then 0 else 1)
  }

  /** How many of the first `n` rows are older than the cutoff. */
  function AgedTo(table: seq<Row>, n: nat, cutoff: Time): (k: nat)
    requires n <= |table|
    ensures k <= n
    decreases n
  {
    if n == 0 then 0 else AgedTo(table, n - 1, cutoff) + (if table[n - 1].polledAt < cutoff then 1 else 0)
  }

  function Passed(table: seq<Row>, watermark: Option<Time>): (k: nat)
    ensures k <= |table|
  {
    PassedTo(table, |table|, watermark)
  }

  function Aged(table: seq<Row>, cutoff: Time): (k: nat)
    ensures k <= |table|
  {
    AgedTo(table, |table|, cutoff)
  }

  lemma {:induction false} PassedToIsPrefix(table: seq<Row>, n: nat, watermark: Option<Time>)
    requires Sorted(table) && n <= |table|
    ensures forall i :: 0 <= i < n ==> (i < PassedTo(table, n, watermark) <==> !Above(table[i], watermark))
  {
    if n > 0 {
      PassedToIsPrefix(table, n - 1, watermark);
    }
  }

  lemma {:induction false} AgedToIsPrefix(table: seq<Row>, n: nat, cutoff: Time)
    requires Sorted(table) && n <= |table|
    ensures forall i :: 0 <= i < n ==> (i < AgedTo(table, n, cutoff) <==> table[i].polledAt < cutoff)
  {
    if n > 0 {
      AgedToIsPrefix(table, n - 1, cutoff);
    }
  }

  /** On a sorted table the rows at or below the watermark come first. */
  lemma PassedIsPrefix(table: seq<Row>, watermark: Option<Time>)
    requires Sorted(table)
    ensures forall i :: 0 <= i < |table| ==> (i < Passed(table, watermark) <==> !Above(table[i], watermark))
  {
    PassedToIsPrefix(table, |table|, watermark);
  }

  /** On a sorted table the aged rows come first. */
  lemma AgedIsPrefix(table: seq<Row>, cutoff: Time)
    requires Sorted(table)
    ensures forall i :: 0 <= i < |table| ==> (i < Aged(table, cutoff) <==> table[i].polledAt < cutoff)
  {
    AgedToIsPrefix(table, |table|, cutoff);
  }

  /** Where a page that starts at `lo` ends. */
  function PageEnd(lo: nat, aged: nat, batch: nat): (end: nat)
    ensures lo <= end <= lo + batch
  {
    if lo >= aged then lo else if lo + batch <= aged then lo + batch else aged
  }

  ghost predicate IsPage(table: seq<Row>, page: seq<Row>, lo: nat, aged: nat, limit: nat) {
    var end := PageEnd(lo, aged, limit);
    end <= |table| && page == table[lo..end]
  }

  /** A row at or below the watermark has only such rows before it. */
  lemma PassedSoFar(table: seq<Row>, n: nat, watermark: Option<Time>)
    requires Sorted(table) && n < |table| && !Above(table[n], watermark)
    ensures PassedTo(table, n, watermark) == n && PassedTo(table, n + 1, watermark) == n + 1
  {
    PassedToIsPrefix(table, n, watermark);
    assert n > 0 ==> !Above(table[n - 1], watermark);
  }

  /** An aged row has only aged rows before it. */
  lemma AgedSoFar(table: seq<Row>, n: nat, cutoff: Time)
    requires Sorted(table) && n < |table| && table[n].polledAt < cutoff
    ensures AgedTo(table, n, cutoff) == n && AgedTo(table, n + 1, cutoff) == n + 1
  {
    AgedToIsPrefix(table, n, cutoff);
    assert n > 0 ==> table[n - 1].polledAt < cutoff;
  }

  lemma PageGrows(table: seq<Row>, page: seq<Row>, n: nat, lo: nat, limit: nat)
    requires lo <= n < |table| && IsPage(table, page, lo, n, limit)
    ensures IsPage(table, if |page| < limit then page + [table[n]] else page, lo, n + 1, limit)
  {
    if |page| < limit {
      assert page + [table[n]] == table[lo..n + 1];
    }
  }

  lemma PageEmpties(table: seq<Row>, page: seq<Row>, n: nat, aged: nat, aged': nat, limit: nat)
    requires n < |table| && aged <= n && aged' <= n + 1 && IsPage(table, page, n, aged, limit)
    ensures IsPage(table, page, n + 1, aged', limit)
  {
  }

  /** What the query does with one more row. */
  lemma QueryStep(table: seq<Row>, n: nat, cutoff: Time, watermark: Option<Time>, limit: nat)
    requires Sorted(table) && n < |table|
    requires IsPage(table, QueryTo(table, n, cutoff, watermark, limit),
                    PassedTo(table, n, watermark), AgedTo(table, n, cutoff), limit)
    ensures IsPage(table, QueryTo(table, n + 1, cutoff, watermark, limit),
                   PassedTo(table, n + 1, watermark), AgedTo(table, n + 1, cutoff), limit)
  {
    var page := QueryTo(table, n, cutoff, watermark, limit);
    var lo, aged := PassedTo(table, n, watermark), AgedTo(table, n, cutoff);
    if !Above(table[n], watermark) {
      PassedSoFar(table, n, watermark);
      PageEmpties(table, page, n, aged, AgedTo(table, n + 1, cutoff), limit);
      assert QueryTo(table, n + 1, cutoff, watermark, limit) == page;
    } else if table[n].polledAt < cutoff {
      AgedSoFar(table, n, cutoff);
      PageGrows(table, page, n, lo, limit);
      assert PassedTo(table, n + 1, watermark) == lo;
    } else {
      assert QueryTo(table, n + 1, cutoff, watermark, limit) == page;
      assert PassedTo(table, n + 1, watermark) == lo && AgedTo(table, n + 1, cutoff) == aged;
    }
  }

  /** On a sorted table the query is the slice between the watermark and the cutoff. */
  lemma {:induction false} QueryIsSlice(table: seq<Row>, n: nat, cutoff: Time, watermark: Option<Time>, limit: nat)
    requires Sorted(table) && n <= |table|
    ensures IsPage(table, QueryTo(table, n, cutoff, watermark, limit),
                   PassedTo(table, n, watermark), AgedTo(table, n, cutoff), limit)
  {
    if n > 0 {
      QueryIsSlice(table, n - 1, cutoff, watermark, limit);
      QueryStep(table, n - 1, cutoff, watermark, limit);
    }
  }

  /** How many rows from `lo` to `hi` are pending. */
  function PendingCount(table: seq<Row>, lo: nat, hi: nat): nat
    requires lo <= hi <= |table|
    decreases hi - lo
  {
    if lo == hi then 0 else PendingCount(table, lo, hi - 1) + (if Pending(table[hi - 1]) then 1 else 0)
  }

  const MAX_PAGES_PER_CYCLE: nat := 50

  /** The position a cycle stops at: page by page until a short page, a full quota of rewrites, or the last
      page. */
  function CycleEnd(table: seq<Row>, lo: nat, aged: nat, batch: nat, processed: nat, pagesLeft: nat): (end: nat)
    requires lo <= |table| && aged <= |table|
    ensures lo <= end <= |table|
    decreases pagesLeft, table
  {
    if pagesLeft == 0 then lo
    else
      var end := PageEnd(lo, aged, batch);
      var done := processed + PendingCount(table, lo, end);
      if end - lo < batch || done >= batch then end
      else CycleEnd(table, end, aged, batch, done, pagesLeft - 1)
  }

  /** Where a whole cycle stops. */
  function CycleStop(table: seq<Row>, watermark: Option<Time>, cutoff: Time, batch: nat): (hi: nat)
    ensures Passed(table, watermark) <= hi <= |table|
  {
    CycleEnd(table, Passed(table, watermark), Aged(table, cutoff), batch, 0, MAX_PAGES_PER_CYCLE)
  }

  datatype CycleStats = CycleStats(nProcessed: nat, nSkippedRetained: nat, nMalformed: nat)

  /** The position after slimming: where the watermark points. */
  function WatermarkAt(table: seq<Row>, lo: nat, hi: nat, before: Option<Time>): Option<Time>
    requires lo <= hi <= |table|
  {
    if lo == hi then before else Some(table[hi - 1].polledAt)
  }

  /** The ids rewritten from `lo` to `hi`. */
  function PendingIds(table: seq<Row>, lo: nat, hi: nat): (ids: seq<AuctionId>)
    requires lo <= hi <= |table|
    ensures |ids| == PendingCount(table, lo, hi)
    decreases hi - lo
  {
    if lo == hi then [] else PendingIds(table, lo, hi - 1) + (if Pending(table[hi - 1]) then [table[hi - 1].auctionId] else [])
  }

  /** `UPDATE … WHERE auction_id = id`. */
  function Update(table: seq<Row>, id: AuctionId, p: Payload): (t: seq<Row>)
    ensures |t| == |table|
  {
    seq(|table|, i requires 0 <= i < |table| => if table[i].auctionId == id then table[i].(raw := Some(p)) else table[i])
  }

  class ShadowStore {
    var table: seq<Row>
    ghost var writes: seq<AuctionId>

    /** One row of a page. */
    method ProcessRow(ghost start: seq<Row>, ghost lo: nat, ghost k: nat, r: Row, sols: Solutions, stats: CycleStats)
      returns (stats': CycleStats)
      requires Sorted(start) && UniqueIds(start) && lo <= k < |start| && r == start[k]
      requires table == SlimRange(start, lo, k, sols)
      modifies this
      ensures table == SlimRange(start, lo, k + 1, sols)
      ensures RowsSlimmed(old(table), table, k, k + 1, sols)
      ensures writes == old(writes) + (if Pending(r) then [r.auctionId] else [])
      ensures stats'.nProcessed == stats.nProcessed + (if Pending(r) then 1 else 0)
    {
      SlimRangeExact(table, k, k + 1, sols);
      if r.raw.None? {
        assert table == SlimRange(start, lo, k + 1, sols);
        return stats.(nMalformed := stats.nMalformed + 1);
      }
      if r.raw.value.retained {
        assert table == SlimRange(start, lo, k + 1, sols);
        return stats.(nSkippedRetained := stats.nSkippedRetained + 1);
      }
      var referenced := ExtractReferencedUids(SolutionsOf(sols, r.auctionId));
      var slim := RetainRow(r.raw.value, referenced);
      forall i | 0 <= i < |start| && start[i].auctionId == r.auctionId ensures i == k {
      }
      table := Update(table, r.auctionId, slim);
      writes := writes + [r.auctionId];
      assert table == SlimRange(start, lo, k + 1, sols);
      return stats.(nProcessed := stats.nProcessed + 1);
    }

    /** The rows of one page, which are those of the table from `at` on. */
    method ProcessPage(ghost start: seq<Row>, ghost lo: nat, ghost at: nat, rows: seq<Row>, ghost first: Option<Time>,
        watermark: Option<Time>, sols: Solutions, stats: CycleStats)
      returns (watermark': Option<Time>, stats': CycleStats)
      requires Sorted(start) && UniqueIds(start) && at + |rows| <= |start| && rows == start[at..at + |rows|]
      requires Reached(start, lo, at, first, sols, table, watermark, stats.nProcessed)
      modifies this
      ensures Reached(start, lo, at + |rows|, first, sols, table, watermark', stats'.nProcessed)
      ensures writes == old(writes) + PendingIds(start, at, at + |rows|)
    {
      watermark', stats' := watermark, stats;
      for k := 0 to |rows|
        invariant Reached(start, lo, at + k, first, sols, table, watermark', stats'.nProcessed)
        invariant writes == old(writes) + PendingIds(start, at, at + k)
      {
        watermark' := Some(rows[k].polledAt);
        stats' := ProcessRow(start, lo, at + k, rows[k], sols, stats');
      }
    }

    /** One turn of the page loop: query, rewrite, decide whether to go on. `hi` is where the cycle will stop,
        with `pagesAfter` more pages allowed after this one. */
    method NextPage(ghost start: seq<Row>, ghost lo: nat, ghost at: nat, ghost hi: nat, ghost pagesAfter: nat, batch: nat,
        cutoff: Time, ghost first: Option<Time>, watermark: Option<Time>, sols: Solutions, stats: CycleStats)
      returns (watermark': Option<Time>, stats': CycleStats, more: bool, ghost at': nat)
      requires Sorted(start) && UniqueIds(start) && lo == Passed(start, first)
      requires Reached(start, lo, at, first, sols, table, watermark, stats.nProcessed)
      requires hi == CycleEnd(start, at, Aged(start, cutoff), batch, stats.nProcessed, pagesAfter + 1)
      modifies this
      ensures Reached(start, lo, at', first, sols, table, watermark', stats'.nProcessed)
      ensures at <= at' && writes == old(writes) + PendingIds(start, at, at')
      ensures hi == if more then CycleEnd(start, at', Aged(start, cutoff), batch, stats'.nProcessed, pagesAfter) else at'
    {
      PageIsSlice(start, lo, at, sols, cutoff, first, batch);
      var rows := Query(table, cutoff, watermark, batch);
      at' := at + |rows|;
      CycleStep(start, lo, at, at', Aged(start, cutoff), batch, pagesAfter + 1);
      watermark', stats' := ProcessPage(start, lo, at, rows, first, watermark, sols, stats);
      more := !(|rows| < batch || stats'.nProcessed >= batch);
    }

    /** The page loop of `run_cycle`, for at most `pages` pages: what a cycle has committed when it ends, or
        when the page after them raises. */
    method RunPages(batch: nat, watermark: Option<Time>, cutoff: Time, sols: Solutions, pages: nat)
      returns (stats: CycleStats, watermark': Option<Time>)
      requires Sorted(table) && UniqueIds(table)
      modifies this
      ensures var start := old(table);
              var lo := Passed(start, watermark);
              var hi := CycleEnd(start, lo, Aged(start, cutoff), batch, 0, pages);
        && table == SlimRange(start, lo, hi, sols) && RowsSlimmed(start, table, lo, hi, sols)
        && watermark' == WatermarkAt(start, lo, hi, watermark)
        && writes == old(writes) + PendingIds(start, lo, hi)
        && stats.nProcessed == PendingCount(start, lo, hi)
    {
      ghost var start := table;
      ghost var lo := Passed(start, watermark);
      ghost var hi := CycleEnd(start, lo, Aged(start, cutoff), batch, 0, pages);
      ghost var at: nat := lo;
      watermark' := watermark;
      stats := CycleStats(0, 0, 0);
      assert table == SlimRange(start, lo, lo, sols);
      SlimRangeExact(start, lo, hi, sols);
      var left := pages;
      while left > 0
        invariant Reached(start, lo, at, watermark, sols, table, watermark', stats.nProcessed)
        invariant writes == old(writes) + PendingIds(start, lo, at)
        invariant hi == CycleEnd(start, at, Aged(start, cutoff), batch, stats.nProcessed, left)
      {
        var more;
        ghost var next: nat;
        left := left - 1;
        watermark', stats, more, next := NextPage(start, lo, at, hi, left, batch, cutoff, watermark, watermark', sols, stats);
        IdsSplit(start, lo, at, next);
        AppendAssoc(old(writes), PendingIds(start, lo, at), PendingIds(start, at, next));
        at := next;
        if !more {
          return;
        }
      }
    }

    /** `run_cycle`, for a cutoff computed by the caller. */
    method RunCycle(batch: nat, watermark: Option<Time>, cutoff: Time, sols: Solutions)
      returns (stats: CycleStats, watermark': Option<Time>)
      requires Sorted(table) && UniqueIds(table)
      modifies this
      ensures var start := old(table);
              var lo := Passed(start, watermark);
              var hi := CycleStop(start, watermark, cutoff, batch);
        && table == SlimRange(start, lo, hi, sols) && RowsSlimmed(start, table, lo, hi, sols)
        && watermark' == WatermarkAt(start, lo, hi, watermark)
        && writes == old(writes) + PendingIds(start, lo, hi)
        && stats.nProcessed == PendingCount(start, lo, hi)
    {
      stats, watermark' := RunPages(batch, watermark, cutoff, sols, MAX_PAGES_PER_CYCLE);
    }
  }

  /** The state of a cycle that has processed the rows from `lo` to `at`. */
  ghost predicate Reached(start: seq<Row>, lo: nat, at: nat, first: Option<Time>, sols: Solutions,
      table: seq<Row>, watermark: Option<Time>, processed: nat) {
    && lo <= at <= |start|
    && table == SlimRange(start, lo, at, sols)
    && watermark == WatermarkAt(start, lo, at, first)
    && processed == PendingCount(start, lo, at)
  }

  /** One page of `CycleEnd`, from the middle of a cycle. */
  lemma CycleStep(table: seq<Row>, lo: nat, at: nat, end: nat, aged: nat, batch: nat, pagesLeft: nat)
    requires lo <= at <= |table| && aged <= |table| && pagesLeft > 0 && end == PageEnd(at, aged, batch)
    ensures CycleEnd(table, at, aged, batch, PendingCount(table, lo, at), pagesLeft)
         == if end - at < batch || PendingCount(table, lo, end) >= batch then end
            else CycleEnd(table, end, aged, batch, PendingCount(table, lo, end), pagesLeft - 1)
  {
    CountSplits(table, lo, at, end);
  }

  lemma {:induction false} CountSplits(table: seq<Row>, lo: nat, mid: nat, hi: nat)
    requires lo <= mid <= hi <= |table|
    ensures PendingCount(table, lo, hi) == PendingCount(table, lo, mid) + PendingCount(table, mid, hi)
    decreases hi - mid
  {
    if mid < hi {
      CountSplits(table, lo, mid, hi - 1);
    }
  }

  lemma {:induction false} IdsSplit(table: seq<Row>, lo: nat, mid: nat, hi: nat)
    requires lo <= mid <= hi <= |table|
    ensures PendingIds(table, lo, hi) == PendingIds(table, lo, mid) + PendingIds(table, mid, hi)
    decreases hi - mid
  {
    if mid < hi {
      IdsSplit(table, lo, mid, hi - 1);
    }
  }

  /** Rewritten rows keep their place and time. */
  lemma SlimKeepsKeys(table: seq<Row>, lo: nat, hi: nat, sols: Solutions)
    ensures forall i :: 0 <= i < |table| ==>
              SlimRange(table, lo, hi, sols)[i].polledAt == table[i].polledAt
              && SlimRange(table, lo, hi, sols)[i].auctionId == table[i].auctionId
    ensures Sorted(table) ==> Sorted(SlimRange(table, lo, hi, sols))
    ensures UniqueIds(table) ==> UniqueIds(SlimRange(table, lo, hi, sols))
  {
  }

  lemma {:induction false} SameCounts(table: seq<Row>, other: seq<Row>, n: nat, watermark: Option<Time>, cutoff: Time)
    requires n <= |table| == |other| && forall i :: 0 <= i < |table| ==> table[i].polledAt == other[i].polledAt
    ensures PassedTo(table, n, watermark) == PassedTo(other, n, watermark) && AgedTo(table, n, cutoff) == AgedTo(other, n, cutoff)
  {
    if n > 0 {
      SameCounts(table, other, n - 1, watermark, cutoff);
    }
  }

  /** The position of a watermark that points at a row. */
  lemma PassedAt(table: seq<Row>, lo: nat, at: nat, watermark: Option<Time>)
    requires Sorted(table) && lo == Passed(table, watermark) && lo <= at <= |table|
    ensures Passed(table, WatermarkAt(table, lo, at, watermark)) == at
  {
    var w := WatermarkAt(table, lo, at, watermark);
    PassedIsPrefix(table, w);
    if at > lo {
      assert !Above(table[at - 1], w);
      assert at < |table| ==> Above(table[at], w);
      assert Passed(table, w) > at - 1;
    }
  }

  /** In the middle of a cycle the next query returns the next unprocessed rows, as they were at the start. */
  lemma PageIsSlice(start: seq<Row>, lo: nat, at: nat, sols: Solutions, cutoff: Time, watermark: Option<Time>, batch: nat)
    requires Sorted(start) && lo == Passed(start, watermark) && lo <= at <= |start|
    ensures IsPage(start, Query(SlimRange(start, lo, at, sols), cutoff, WatermarkAt(start, lo, at, watermark), batch),
                   at, Aged(start, cutoff), batch)
  {
    var table := SlimRange(start, lo, at, sols);
    var w := WatermarkAt(start, lo, at, watermark);
    SlimKeepsKeys(start, lo, at, sols);
    QueryIsSlice(table, |table|, cutoff, w, batch);
    SameCounts(start, table, |start|, w, cutoff);
    PassedAt(start, lo, at, watermark);
    var end := PageEnd(at, Aged(start, cutoff), batch);
    assert table[at..end] == start[at..end];
  }

  /** A cycle rewrites at most one row less than two batches. */
  lemma {:induction false} RewritesBounded(table: seq<Row>, lo: nat, aged: nat, batch: nat, processed: nat, pagesLeft: nat)
    requires lo <= |table| && aged <= |table| && processed < batch
    ensures processed + PendingCount(table, lo, CycleEnd(table, lo, aged, batch, processed, pagesLeft)) <= 2 * batch - 1
    decreases pagesLeft
  {
    if pagesLeft > 0 {
      var end := PageEnd(lo, aged, batch);
      CountBounded(table, lo, end);
      var done := processed + PendingCount(table, lo, end);
      if !(end - lo < batch || done >= batch) {
        RewritesBounded(table, end, aged, batch, done, pagesLeft - 1);
        CountSplits(table, lo, end, CycleEnd(table, end, aged, batch, done, pagesLeft - 1));
      }
    }
  }

  /** The position after `k` pages, were the cycle not to stop. */
  function Boundary(lo: nat, aged: nat, batch: nat, k: nat): (at: nat)
    ensures lo <= at
    ensures at <= if lo <= aged then aged else lo
    decreases k
  {
    if k == 0 then lo else Boundary(PageEnd(lo, aged, batch), aged, batch, k - 1)
  }

  /** Some page opens with quota left and holds more pending rows than that. */
  ghost predicate Overfull(table: seq<Row>, lo: nat, aged: nat, batch: nat, processed: nat, pages: nat)
    requires lo <= |table| && aged <= |table|
  {
    exists k :: 0 <= k < pages && Overfills(table, lo, aged, batch, processed, k)
  }

  ghost predicate Overfills(table: seq<Row>, lo: nat, aged: nat, batch: nat, processed: nat, k: nat)
    requires lo <= |table| && aged <= |table|
  {
    && processed + PendingCount(table, lo, Boundary(lo, aged, batch, k)) < batch
    && batch < processed + PendingCount(table, lo, Boundary(lo, aged, batch, k + 1))
  }

  /** Past the last aged row the boundaries stay put. */
  lemma {:induction false} BoundaryStays(lo: nat, aged: nat, batch: nat, k: nat)
    requires aged <= lo
    ensures Boundary(lo, aged, batch, k) == lo
    decreases k
  {
    if k > 0 {
      BoundaryStays(lo, aged, batch, k - 1);
    }
  }

  /** One page on, the same pages overfill. */
  lemma {:induction false} OverfillsShift(table: seq<Row>, lo: nat, aged: nat, batch: nat, processed: nat, k: nat)
    requires lo <= |table| && aged <= |table| && k > 0
    ensures var end := PageEnd(lo, aged, batch);
            Overfills(table, lo, aged, batch, processed, k)
            <==> Overfills(table, end, aged, batch, processed + PendingCount(table, lo, end), k - 1)
  {
    var end := PageEnd(lo, aged, batch);
    CountSplits(table, lo, end, Boundary(end, aged, batch, k - 1));
    CountSplits(table, lo, end, Boundary(end, aged, batch, k));
  }

  /** Some page overfills the quota when the first does, or some page after it. */
  lemma {:induction false} OverfullUnfolds(table: seq<Row>, lo: nat, aged: nat, batch: nat, processed: nat, pages: nat)
    requires lo <= |table| && aged <= |table| && processed < batch && pages > 0
    ensures var end := PageEnd(lo, aged, batch);
            var done := processed + PendingCount(table, lo, end);
            Overfull(table, lo, aged, batch, processed, pages)
            <==> done > batch || Overfull(table, end, aged, batch, done, pages - 1)
  {
    var end := PageEnd(lo, aged, batch);
    var done := processed + PendingCount(table, lo, end);
    assert Boundary(lo, aged, batch, 1) == end by {
      assert Boundary(end, aged, batch, 0) == end;
    }
    assert Overfills(table, lo, aged, batch, processed, 0) <==> done > batch;
    forall k | 0 < k < pages
      ensures Overfills(table, lo, aged, batch, processed, k) <==> Overfills(table, end, aged, batch, done, k - 1) {
      OverfillsShift(table, lo, aged, batch, processed, k);
    }
    if Overfull(table, end, aged, batch, done, pages - 1) {
      var k :| 0 <= k < pages - 1 && Overfills(table, end, aged, batch, done, k);
      assert Overfills(table, lo, aged, batch, processed, k + 1);
    }
  }

  /** The comment's cap of `batch` rewrites holds exactly when no page overfills the quota. */
  lemma {:induction false} CapExact(table: seq<Row>, lo: nat, aged: nat, batch: nat, processed: nat, pages: nat)
    requires lo <= |table| && aged <= |table| && processed < batch
    ensures processed + PendingCount(table, lo, CycleEnd(table, lo, aged, batch, processed, pages)) <= batch
         <==> !Overfull(table, lo, aged, batch, processed, pages)
    decreases pages
  {
    if pages == 0 {
      return;
    }
    var end := PageEnd(lo, aged, batch);
    var done := processed + PendingCount(table, lo, end);
    OverfullUnfolds(table, lo, aged, batch, processed, pages);
    if done >= batch {
      forall k: nat ensures !Overfills(table, end, aged, batch, done, k) {
      }
    } else if end - lo < batch {
      forall k: nat ensures !Overfills(table, end, aged, batch, done, k) {
        BoundaryStays(end, aged, batch, k);
        BoundaryStays(end, aged, batch, k + 1);
      }
    } else {
      CapExact(table, end, aged, batch, done, pages - 1);
      CountSplits(table, lo, end, CycleEnd(table, end, aged, batch, done, pages - 1));
    }
  }

  /** Three rewrites with a batch of two: a retained row, then three pending ones. */
  lemma {:induction false} CapExceeded(table: seq<Row>, cutoff: Time)
    requires |table| == 4 && Aged(table, cutoff) == 4
    requires !Pending(table[0]) && forall i :: 1 <= i < 4 ==> Pending(table[i])
    ensures PendingCount(table, 0, CycleStop(table, None, cutoff, 2)) == 3
  {
    assert forall r: Row :: Above(r, None);
    assert Passed(table, None) == 0;
    assert PendingCount(table, 0, 2) == 1 && PendingCount(table, 2, 4) == 2;
    assert CycleEnd(table, 0, 4, 2, 0, MAX_PAGES_PER_CYCLE) == CycleEnd(table, 2, 4, 2, 1, MAX_PAGES_PER_CYCLE - 1);
    assert CycleEnd(table, 2, 4, 2, 1, MAX_PAGES_PER_CYCLE - 1) == 4;
  }

  lemma {:induction false} CountBounded(table: seq<Row>, lo: nat, hi: nat)
    requires lo <= hi <= |table|
    ensures PendingCount(table, lo, hi) <= hi - lo
    decreases hi - lo
  {
    if lo < hi {
      CountBounded(table, lo, hi - 1);
    }
  }

  /** A cycle never reaches past the cutoff, and it stops short of it only after a full quota of rewrites or
      a full set of pages. */
  lemma {:induction false} CycleReach(table: seq<Row>, lo: nat, aged: nat, batch: nat, processed: nat, pagesLeft: nat)
    requires lo <= |table| && aged <= |table| && batch > 0
    ensures var hi := CycleEnd(table, lo, aged, batch, processed, pagesLeft);
      && (hi <= aged || hi == lo)
      && (hi >= aged || processed + PendingCount(table, lo, hi) >= batch || hi - lo == pagesLeft * batch)
    decreases pagesLeft
  {
    if pagesLeft > 0 {
      var end := PageEnd(lo, aged, batch);
      var done := processed + PendingCount(table, lo, end);
      if !(end - lo < batch || done >= batch) {
        CycleReach(table, end, aged, batch, done, pagesLeft - 1);
        CountSplits(table, lo, end, CycleEnd(table, end, aged, batch, done, pagesLeft - 1));
        assert pagesLeft * batch == (pagesLeft - 1) * batch + batch;
      }
    }
  }

  /** A whole cycle gives up at 50 pages. */
  lemma {:induction false} CycleStopReach(table: seq<Row>, watermark: Option<Time>, cutoff: Time, batch: nat)
    requires batch > 0
    ensures var lo, hi, aged := Passed(table, watermark), CycleStop(table, watermark, cutoff, batch), Aged(table, cutoff);
      && (hi <= aged || hi == lo)
      && (hi >= aged || PendingCount(table, lo, hi) >= batch || hi - lo == 50 * batch)
  {
    CycleReach(table, Passed(table, watermark), Aged(table, cutoff), batch, 0, MAX_PAGES_PER_CYCLE);
  }
}
