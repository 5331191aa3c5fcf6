/** The solve-time order filter (solver/order_validity.py): one batch of storage reads for all candidates,
    scattered back to the orders, and a drop decision per order. Anything that raises keeps every order. */
module OrderValidity {
  import opened Wrappers
  import opened Sequences
  import opened Models
  import opened Multicall
  import opened Candidates
  import V3Path

  datatype CheckKind = Filled | PreSig | Balance | Allowance

  datatype Check = Check(uid: Uid, kind: CheckKind)

  datatype ReadCall =
    | FilledAmount(uid: Bytes)
    | PreSignature(uid: Bytes)
    | BalanceOf(token: Token, owner: string)
    | AllowanceOf(token: Token, owner: string)

  datatype Reason = AlreadyFilled | PresignatureMissing | InsufficientBalance | InsufficientAllowance

  /** The checks an order gets, in the order they are batched. */
  function CheckKinds(o: Order): seq<CheckKind> {
    [Filled]
      + (if o.presign then [PreSig] else [])
      + (if o.erc20Funded then [Balance] + (if o.hasPreInteractions then [] else [Allowance]) else [])
  }

  /** `_uid_bytes`; None where the uid is not hex. */
  function UidBytes(uid: Uid): Option<Bytes> {
    V3Path.FromHex(if |uid| >= 2 && uid[..2] == "0x" then uid[2..] else uid)
  }

  /** The bytes of a uid spell it back but for the case of its digits, whether or not it comes with a prefix. */
  lemma {:induction false} UidBytesSpell(digits: string)
    requires V3Path.FromHex(digits).Some? && V3Path.Blanks(digits) == 0
    ensures UidBytes(digits).Some? && V3Path.ToHex(UidBytes(digits).value) == V3Path.Lower(digits)
    ensures UidBytes("0x" + digits).Some? && V3Path.ToHex(UidBytes("0x" + digits).value) == V3Path.Lower(digits)
  {
    V3Path.HexRoundTrip(digits);
    assert ("0x" + digits)[2..] == digits && ("0x" + digits)[..2] == "0x";
    assert |digits| >= 2 ==> digits[..2][1] == digits[1];
  }

  function CallFor(o: Order, kind: CheckKind): ReadCall
    requires UidBytes(o.uid).Some?
  {
    match kind
    case Filled => FilledAmount(UidBytes(o.uid).value)
    case PreSig => PreSignature(UidBytes(o.uid).value)
    case Balance => BalanceOf(o.sellToken, o.owner)
    case Allowance => AllowanceOf(o.sellToken, o.owner)
  }

  /** The calls of an order can be built: its uid is hex, and its owner an address where funding is read. */
  predicate CanAsk(o: Order) {
    UidBytes(o.uid).Some? && (o.erc20Funded ==> V3Path.HexAddress(o.owner))
  }

  predicate Encodable(orders: seq<Order>) {
    forall i :: 0 <= i < |orders| ==> CanAsk(orders[i])
  }

  function ChecksOf(o: Order): (checks: seq<Check>)
    ensures |checks| == |CheckKinds(o)|
  {
    seq(|CheckKinds(o)|, i requires 0 <= i < |CheckKinds(o)| => Check(o.uid, CheckKinds(o)[i]))
  }

  function CallsOf(o: Order): (calls: seq<ReadCall>)
    requires UidBytes(o.uid).Some?
    ensures |calls| == |CheckKinds(o)|
  {
    seq(|CheckKinds(o)|, i requires 0 <= i < |CheckKinds(o)| => CallFor(o, CheckKinds(o)[i]))
  }

  function AllChecks(orders: seq<Order>): seq<Check> {
    if orders == [] then [] else AllChecks(orders[..|orders| - 1]) + ChecksOf(orders[|orders| - 1])
  }

  function AllCalls(orders: seq<Order>): (calls: seq<ReadCall>)
    requires Encodable(orders)
    ensures |calls| == |AllChecks(orders)|
  {
    if orders == [] then [] else AllCalls(orders[..|orders| - 1]) + CallsOf(orders[|orders| - 1])
  }

  /** The calls and tags of one order. */
  method BuildOrderChecks(o: Order) returns (r: Option<(seq<ReadCall>, seq<Check>)>)
    ensures r.Some? <==> CanAsk(o)
    ensures r.Some? ==> r.value == (CallsOf(o), ChecksOf(o))
  {
    var uid := UidBytes(o.uid);
    if uid.None? {
      return None;
    }
    var calls, checks := [FilledAmount(uid.value)], [Check(o.uid, Filled)];
    if o.presign {
      calls := calls + [PreSignature(uid.value)];
      checks := checks + [Check(o.uid, PreSig)];
    }
    if o.erc20Funded {
      if !V3Path.HexAddress(o.owner) {
        return None;
      }
      calls := calls + [BalanceOf(o.sellToken, o.owner)];
      checks := checks + [Check(o.uid, Balance)];
      if !o.hasPreInteractions {
        calls := calls + [AllowanceOf(o.sellToken, o.owner)];
        checks := checks + [Check(o.uid, Allowance)];
      }
    }
    assert calls == CallsOf(o) && checks == ChecksOf(o);
    return Some((calls, checks));
  }

  /** `_build_checks`: calls and tags, positionally aligned; None when a uid cannot be encoded. */
  method BuildChecks(orders: seq<Order>) returns (r: Option<(seq<ReadCall>, seq<Check>)>)
    ensures r.Some? <==> Encodable(orders)
    ensures r.Some? <==> forall o :: o in orders ==> UidBytes(o.uid).Some? && (o.erc20Funded ==> V3Path.HexAddress(o.owner))
    ensures r.Some? ==> r.value.0 == AllCalls(orders) && r.value.1 == AllChecks(orders)
  {
    var calls: seq<ReadCall> := [];
    var checks: seq<Check> := [];
    for i := 0 to |orders|
      invariant Encodable(orders[..i])
      invariant calls == AllCalls(orders[..i]) && checks == AllChecks(orders[..i])
    {
      TakeNext(orders, i);
      var ofOrder := BuildOrderChecks(orders[i]);
      if ofOrder.None? {
        return None;
      }
      calls := calls + ofOrder.value.0;
      checks := checks + ofOrder.value.1;
    }
    TakeAll(orders);
    return Some((calls, checks));
  }

  function BigEndian(b: Bytes): nat {
    if b == [] then 0 else BigEndian(b[..|b| - 1]) * 256 + b[|b| - 1] as nat
  }

  /** `_decode_uint`: None for a short return. */
  function DecodeUint(data: Bytes): Option<nat> {
    if |data| < 32 then None else Some(BigEndian(data[..32]))
  }

  function Value(r: CallResult): Option<nat> {
    if r.success then DecodeUint(r.data) else None
  }

  // ---- the decision ---------------------------------------------------------------------------------

  /** `_required_funding`. */
  function RequiredFunding(o: Order, filled: Option<nat>): nat {
    if o.kind.Sell? then
      var f := if filled.None? then 0 else if filled.value <= o.sellAmount then filled.value else o.sellAmount;
      var remaining := o.sellAmount - f;
      if o.partiallyFillable then (if remaining <= o.sellAmount / 2 then remaining else o.sellAmount / 2)
      else remaining
    else if !o.partiallyFillable then o.sellAmount
    else 0
  }

  predicate Short(reading: Option<nat>, required: nat) {
    reading.Some? && reading.value < required
  }

  /** Why an order is dropped, from its four readings. */
  function Decide(o: Order, filled: Option<nat>, presig: Option<nat>, balance: Option<nat>, allowance: Option<nat>)
    : Option<Reason>
  {
    var target := if o.kind.Sell? then o.sellAmount else o.buyAmount;
    if filled.Some? && filled.value > 0 && (!o.partiallyFillable || filled.value >= target) then Some(AlreadyFilled)
    else if presig == Some(0) then Some(PresignatureMissing)
    else
      var required := RequiredFunding(o, filled);
      if required > 0 && Short(balance, required) then Some(InsufficientBalance)
      else if required > 0 && Short(allowance, required) then Some(InsufficientAllowance)
      else None
  }

  /** The reading the scatter loop leaves for a tag. */
  function ScatteredReading(checks: seq<Check>, results: seq<CallResult>, c: Check): Option<nat>
    requires |results| == |checks|
  {
    if checks == [] then None
    else
      var n := |checks| - 1;
      if checks[n] == c then Value(results[n]) else ScatteredReading(checks[..n], results[..n], c)
  }

  function ScatteredDecision(checks: seq<Check>, results: seq<CallResult>, o: Order): Option<Reason>
    requires |results| == |checks|
  {
    Decide(o, ScatteredReading(checks, results, Check(o.uid, Filled)), ScatteredReading(checks, results, Check(o.uid, PreSig)),
           ScatteredReading(checks, results, Check(o.uid, Balance)), ScatteredReading(checks, results, Check(o.uid, Allowance)))
  }

  /** The decision for one order, read off the scattered readings. */
  function DecideFrom(readings: map<Check, Option<nat>>, o: Order): Option<Reason> {
    Decide(o, Get(readings, Check(o.uid, Filled)), Get(readings, Check(o.uid, PreSig)),
           Get(readings, Check(o.uid, Balance)), Get(readings, Check(o.uid, Allowance)))
  }

  function DecisionsFrom(readings: map<Check, Option<nat>>, orders: seq<Order>): (ds: seq<Option<Reason>>)
    ensures |ds| == |orders|
  {
    seq(|orders|, i requires 0 <= i < |orders| => DecideFrom(readings, orders[i]))
  }

  /** The orders a decision keeps, in order. */
  function Keep(orders: seq<Order>, decisions: seq<Option<Reason>>): seq<Order>
    requires |decisions| == |orders|
  {
    if orders == [] then []
    else
      var n := |orders| - 1;
      Keep(orders[..n], decisions[..n]) + (if decisions[n].None? then [orders[n]] else [])
  }

  function ScatteredDecisions(orders: seq<Order>, checks: seq<Check>, results: seq<CallResult>): (ds: seq<Option<Reason>>)
    requires |results| == |checks|
    ensures |ds| == |orders|
  {
    seq(|orders|, i requires 0 <= i < |orders| => ScatteredDecision(checks, results, orders[i]))
  }

  function Get(readings: map<Check, Option<nat>>, c: Check): Option<nat> {
    if c in readings then readings[c] else None
  }

  /** The loop that scatters the batch's results back to the tags. */
  method Scatter(checks: seq<Check>, results: seq<CallResult>) returns (readings: map<Check, Option<nat>>)
    requires |results| == |checks|
    ensures forall c :: Get(readings, c) == ScatteredReading(checks, results, c)
  {
    readings := map[];
    for j := 0 to |checks|
      invariant forall c :: Get(readings, c) == ScatteredReading(checks[..j], results[..j], c)
    {
      assert checks[..j + 1][..j] == checks[..j] && results[..j + 1][..j] == results[..j];
      var value := if results[j].success then DecodeUint(results[j].data) else None;
      readings := readings[checks[j] := value];
    }
    assert checks[..|checks|] == checks && results[..|checks|] == results;
  }

  /** The outcome of filtering, as decided order by order. */
  ghost predicate FilteredBy(orders: seq<Order>, decisions: seq<Option<Reason>>, kept: seq<Order>, dropped: map<Uid, Reason>)
    requires |decisions| == |orders|
  {
    kept == Keep(orders, decisions) && DroppedBy(orders, decisions, |orders|, dropped)
  }

  /** `dropped` holds the reasons of the first `n` orders that have one, and nothing else. */
  ghost predicate DroppedBy(orders: seq<Order>, decisions: seq<Option<Reason>>, n: nat, dropped: map<Uid, Reason>)
    requires n <= |orders| == |decisions|
  {
    && (forall i :: 0 <= i < n ==>
          (orders[i].uid in dropped <==> decisions[i].Some?)
          && (orders[i].uid in dropped ==> dropped[orders[i].uid] == decisions[i].value))
    && (forall uid :: uid in dropped ==> Among(orders, n, uid))
  }

  ghost predicate Among(orders: seq<Order>, n: nat, uid: Uid)
    requires n <= |orders|
  {
    exists i :: 0 <= i < n && orders[i].uid == uid
  }

  /** The dropping loop. */
  method DropOrders(orders: seq<Order>, readings: map<Check, Option<nat>>) returns (kept: seq<Order>, dropped: map<Uid, Reason>)
    requires UniqueUids(orders)
    ensures FilteredBy(orders, DecisionsFrom(readings, orders), kept, dropped)
  {
    ghost var decisions := DecisionsFrom(readings, orders);
    kept, dropped := [], map[];
    for i := 0 to |orders|
      invariant kept == Keep(orders[..i], decisions[..i]) && DroppedBy(orders, decisions, i, dropped)
    {
      TakeNext(orders, i);
      TakeNext(decisions, i);
      ghost var before := dropped;
      var reason := DecideFrom(readings, orders[i]);
      if reason.Some? {
        dropped := dropped[orders[i].uid := reason.value];
      } else {
        kept := kept + [orders[i]];
      }
      GrowDropped(orders, decisions, i, before, dropped);
    }
    TakeAll(orders);
    TakeAll(decisions);
  }

  lemma GrowDropped(orders: seq<Order>, decisions: seq<Option<Reason>>, i: nat, before: map<Uid, Reason>, after: map<Uid, Reason>)
    requires UniqueUids(orders) && |decisions| == |orders| && i < |orders| && DroppedBy(orders, decisions, i, before)
    requires after == if decisions[i].Some? then before[orders[i].uid := decisions[i].value] else before
    ensures DroppedBy(orders, decisions, i + 1, after)
  {
    forall uid | uid in after ensures Among(orders, i + 1, uid) {
      if uid in before {
        assert Among(orders, i, uid);
      } else {
        assert orders[i].uid == uid;
      }
    }
  }

  // ---- drops rest on evidence -----------------------------------------------------------------------

  function Power256(n: nat): (p: nat)
    ensures p > 0
  {
    if n == 0 then 1 else 256 * Power256(n - 1)
  }

  /** A number read from bytes leads with its first byte. */
  lemma {:induction false} BigEndianLeads(b: Bytes)
    requires b != []
    ensures BigEndian(b) == b[0] as nat * Power256(|b| - 1) + BigEndian(b[1..]) && BigEndian(b) < Power256(|b|)
  {
    var n := |b| - 1;
    if n == 0 {
      assert b[1..] == [];
    } else {
      var high, rest := b[..n], b[1..];
      BigEndianLeads(high);
      assert high[0] == b[0] && high[1..] == rest[..n - 1] && rest[n - 1] == b[n];
      OneMoreByte(b[0], BigEndian(high[1..]), b[n], Power256(n - 1));
    }
  }

  lemma OneMoreByte(lead: Byte, rest: nat, last: Byte, p: nat)
    ensures (lead as nat * p + rest) * 256 + last as nat == lead as nat * (256 * p) + (rest * 256 + last as nat)
  {
  }

  /** What stands in the chain's storage for this call: a number of 32 bytes. */
  ghost predicate Returns(node: Node<ReadCall>, call: ReadCall, v: nat) {
    node.eval(call).success && |node.eval(call).data| >= 32 && BigEndian(node.eval(call).data[..32]) == v
  }

  /** With so much of the order filled nothing of it can be filled again. */
  predicate Exhausts(o: Order, filled: nat) {
    filled > 0 && (!o.partiallyFillable || filled >= if o.kind.Sell? then o.sellAmount else o.buyAmount)
  }

  /** So many sell tokens do not do. A sell needs what is left of it, or half of the whole where that much may be
      executed; a buy that must fill in full needs its limit. */
  predicate Lacks(o: Order, filled: nat, v: nat) {
    if o.kind.Sell? then v + filled < o.sellAmount && (o.partiallyFillable ==> v < o.sellAmount / 2)
    else !o.partiallyFillable && v < o.sellAmount
  }

  /** The chain holds a number that speaks against the order. */
  ghost predicate Evidence(node: Node<ReadCall>, o: Order, reason: Reason) {
    && UidBytes(o.uid).Some?
    && var uid := UidBytes(o.uid).value;
    match reason
    case AlreadyFilled => exists v :: Returns(node, FilledAmount(uid), v) && Exhausts(o, v)
    case PresignatureMissing => o.presign && Returns(node, PreSignature(uid), 0)
    case InsufficientBalance => o.erc20Funded && exists v :: Returns(node, BalanceOf(o.sellToken, o.owner), v) && Lacks(o, 0, v)
    case InsufficientAllowance =>
      o.erc20Funded && !o.hasPreInteractions && exists v :: Returns(node, AllowanceOf(o.sellToken, o.owner), v) && Lacks(o, 0, v)
  }

  /** Every check of a batch stands where its call stands. */
  lemma {:induction false} CheckHasCall(orders: seq<Order>, j: nat) returns (i: nat, kind: CheckKind)
    requires Encodable(orders) && j < |AllChecks(orders)|
    ensures i < |orders| && kind in CheckKinds(orders[i])
    ensures AllChecks(orders)[j] == Check(orders[i].uid, kind) && AllCalls(orders)[j] == CallFor(orders[i], kind)
  {
    var n := |orders| - 1;
    var before := |AllChecks(orders[..n])|;
    if j < before {
      i, kind := CheckHasCall(orders[..n], j);
    } else {
      i, kind := n, CheckKinds(orders[n])[j - before];
    }
  }

  lemma {:induction false} ReadingHasCheck(checks: seq<Check>, results: seq<CallResult>, c: Check) returns (j: nat)
    requires |results| == |checks| && ScatteredReading(checks, results, c).Some?
    ensures j < |checks| && checks[j] == c && Value(results[j]) == ScatteredReading(checks, results, c)
  {
    j := |checks| - 1;
    if checks[j] != c {
      j := ReadingHasCheck(checks[..j], results[..j], c);
    }
  }

  /** What is scattered to an order is what the chain holds for that order's own call. */
  lemma {:induction false} ReadingReturned(node: Node<ReadCall>, orders: seq<Order>, results: seq<CallResult>, o: Order, kind: CheckKind)
    requires UniqueUids(orders) && o in orders && Encodable(orders) && Aligned(node, AllCalls(orders), results)
    ensures var reading := ScatteredReading(AllChecks(orders), results, Check(o.uid, kind));
            reading.Some? ==> kind in CheckKinds(o) && Returns(node, CallFor(o, kind), reading.value)
  {
    if ScatteredReading(AllChecks(orders), results, Check(o.uid, kind)).Some? {
      var j := ReadingHasCheck(AllChecks(orders), results, Check(o.uid, kind));
      var i, same := CheckHasCall(orders, j);
      var k :| 0 <= k < |orders| && orders[k] == o;
    }
  }

  /** A drop from readings that the chain returned has evidence on the chain. */
  lemma {:induction false} DropHasEvidence(node: Node<ReadCall>, o: Order, filled: Option<nat>, presig: Option<nat>, balance: Option<nat>,
                                           allowance: Option<nat>)
    requires CanAsk(o) && Decide(o, filled, presig, balance, allowance).Some?
    requires filled.Some? ==> Returns(node, CallFor(o, Filled), filled.value)
    requires presig.Some? ==> PreSig in CheckKinds(o) && Returns(node, CallFor(o, PreSig), presig.value)
    requires balance.Some? ==> Balance in CheckKinds(o) && Returns(node, CallFor(o, Balance), balance.value)
    requires allowance.Some? ==> Allowance in CheckKinds(o) && Returns(node, CallFor(o, Allowance), allowance.value)
    ensures Evidence(node, o, Decide(o, filled, presig, balance, allowance).value)
  {
  }

  lemma {:induction false} ScatteredHasEvidence(node: Node<ReadCall>, orders: seq<Order>, results: seq<CallResult>, o: Order)
    requires UniqueUids(orders) && o in orders && Encodable(orders) && Aligned(node, AllCalls(orders), results)
    ensures var decision := ScatteredDecision(AllChecks(orders), results, o);
            decision.Some? ==> Evidence(node, o, decision.value)
  {
    ReadingReturned(node, orders, results, o, Filled);
    ReadingReturned(node, orders, results, o, PreSig);
    ReadingReturned(node, orders, results, o, Balance);
    ReadingReturned(node, orders, results, o, Allowance);
    var checks := AllChecks(orders);
    if ScatteredDecision(checks, results, o).Some? {
      DropHasEvidence(node, o, ScatteredReading(checks, results, Check(o.uid, Filled)),
                      ScatteredReading(checks, results, Check(o.uid, PreSig)), ScatteredReading(checks, results, Check(o.uid, Balance)),
                      ScatteredReading(checks, results, Check(o.uid, Allowance)));
    }
  }

  ghost predicate DropsHaveEvidence(node: Node<ReadCall>, orders: seq<Order>, dropped: map<Uid, Reason>) {
    forall o :: o in orders && o.uid in dropped ==> Evidence(node, o, dropped[o.uid])
  }

  lemma {:induction false} FilteredHasEvidence(node: Node<ReadCall>, orders: seq<Order>, results: seq<CallResult>, kept: seq<Order>,
                                               dropped: map<Uid, Reason>)
    requires UniqueUids(orders) && Encodable(orders) && Aligned(node, AllCalls(orders), results)
    requires FilteredBy(orders, ScatteredDecisions(orders, AllChecks(orders), results), kept, dropped)
    ensures DropsHaveEvidence(node, orders, dropped)
  {
    forall o | o in orders && o.uid in dropped ensures Evidence(node, o, dropped[o.uid]) {
      var i :| 0 <= i < |orders| && orders[i] == o;
      ScatteredHasEvidence(node, orders, results, o);
    }
  }

  /** What is kept is what is not dropped, in order. */
  ghost predicate KeepsTheRest(orders: seq<Order>, kept: seq<Order>, dropped: map<Uid, Reason>) {
    && (exists at :: PickedAt(orders, kept, at) && forall i :: 0 <= i < |orders| ==> (i in at <==> orders[i].uid !in dropped))
    && forall uid :: uid in dropped ==> exists o :: o in orders && o.uid == uid
  }

  /** The undecided orders are those at these positions. */
  ghost predicate UndecidedAt(orders: seq<Order>, decisions: seq<Option<Reason>>, kept: seq<Order>, at: seq<nat>)
    requires |decisions| == |orders|
  {
    PickedAt(orders, kept, at) && forall i :: 0 <= i < |orders| ==> (i in at <==> decisions[i].None?)
  }

  lemma UndecidedNext(orders: seq<Order>, decisions: seq<Option<Reason>>, kept: seq<Order>, at: seq<nat>) returns (at': seq<nat>)
    requires orders != [] && |decisions| == |orders|
    requires UndecidedAt(orders[..|orders| - 1], decisions[..|orders| - 1], kept, at)
    ensures UndecidedAt(orders, decisions, if decisions[|orders| - 1].None? then kept + [orders[|orders| - 1]] else kept, at')
  {
    var n := |orders| - 1;
    if decisions[n].None? {
      PickTakes(orders, kept, at);
      at' := at + [n];
    } else {
      PickSkips(orders, kept, at);
      at' := at;
    }
    forall i | 0 <= i < n ensures i in at' <==> decisions[i].None? {
      assert decisions[i] == decisions[..n][i];
    }
  }

  lemma {:induction false} KeepPicks(orders: seq<Order>, decisions: seq<Option<Reason>>) returns (at: seq<nat>)
    requires |decisions| == |orders|
    ensures UndecidedAt(orders, decisions, Keep(orders, decisions), at)
  {
    if orders == [] {
      return [];
    }
    var n := |orders| - 1;
    at := KeepPicks(orders[..n], decisions[..n]);
    at := UndecidedNext(orders, decisions, Keep(orders[..n], decisions[..n]), at);
    assert decisions[n].Some? ==> Keep(orders, decisions) == Keep(orders[..n], decisions[..n]);
  }

  lemma {:induction false} FilteredKeepsTheRest(orders: seq<Order>, decisions: seq<Option<Reason>>, kept: seq<Order>, dropped: map<Uid, Reason>)
    requires |decisions| == |orders| && FilteredBy(orders, decisions, kept, dropped)
    ensures KeepsTheRest(orders, kept, dropped)
  {
    var at := KeepPicks(orders, decisions);
    forall uid | uid in dropped ensures exists o :: o in orders && o.uid == uid {
      var i :| 0 <= i < |orders| && orders[i].uid == uid;
      assert orders[i] in orders;
    }
  }

  lemma {:induction false} AllKept(orders: seq<Order>)
    ensures KeepsTheRest(orders, orders, map[])
  {
    var at := seq(|orders|, i => i);
    assert forall i :: 0 <= i < |orders| ==> at[i] == i;
    assert PickedAt(orders, orders, at);
  }

  /** `filter_valid_orders`: fail-open on a bad uid or a failed batch. Whatever the node does, an order is dropped only on
      evidence that the chain holds. */
  method FilterValidOrders(node: Node<ReadCall>, orders: seq<Order>) returns (kept: seq<Order>, dropped: map<Uid, Reason>)
    requires UniqueUids(orders)
    ensures KeepsTheRest(orders, kept, dropped)
    ensures DropsHaveEvidence(node, orders, dropped)
    ensures !Encodable(orders) || AggregateResilient(node, AllCalls(orders)).Failure? ==> kept == orders && dropped == map[]
    ensures Encodable(orders) && AggregateResilient(node, AllCalls(orders)).Success? ==>
              var results := AggregateResilient(node, AllCalls(orders)).value;
              && |results| == |AllChecks(orders)|
              && FilteredBy(orders, ScatteredDecisions(orders, AllChecks(orders), results), kept, dropped)
  {
    if orders == [] {
      AllKept(orders);
      return [], map[];
    }
    var built := BuildChecks(orders);
    if built.None? {
      AllKept(orders);
      return orders, map[];
    }
    var (calls, checks) := built.value;
    var attempt := AggregateResilient(node, calls);
    if attempt.Failure? {
      AllKept(orders);
      return orders, map[];
    }
    BisectionIsSound(node, calls);
    var readings := Scatter(checks, attempt.value);
    kept, dropped := DropOrders(orders, readings);
    ghost var decisions := ScatteredDecisions(orders, checks, attempt.value);
    assert DecisionsFrom(readings, orders) == decisions;
    FilteredKeepsTheRest(orders, decisions, kept, dropped);
    FilteredHasEvidence(node, orders, attempt.value, kept, dropped);
  }

  // ---- batched equals one order at a time -----------------------------------------------------------

  /** The reading of one order asked on its own: absent when the order gets no such check. */
  function Reading(node: Node<ReadCall>, o: Order, kind: CheckKind): Option<nat>
    requires CanAsk(o)
  {
    if kind in CheckKinds(o) then Value(OneByOne(node, CallFor(o, kind))) else None
  }

  /** The decision for an order judged alone. */
  function Decision(node: Node<ReadCall>, o: Order): Option<Reason>
    requires CanAsk(o)
  {
    Decide(o, Reading(node, o, Filled), Reading(node, o, PreSig), Reading(node, o, Balance), Reading(node, o, Allowance))
  }

  lemma {:induction false} ScatterSkips(a: seq<Check>, ra: seq<CallResult>, b: seq<Check>, rb: seq<CallResult>, c: Check)
    requires |ra| == |a| && |rb| == |b|
    ensures c !in b ==> ScatteredReading(a + b, ra + rb, c) == ScatteredReading(a, ra, c)
    ensures c in b ==> ScatteredReading(a + b, ra + rb, c) == ScatteredReading(b, rb, c)
    decreases |b|
  {
    if b == [] {
      assert a + b == a && ra + rb == ra;
    } else {
      var n := |b| - 1;
      assert (a + b)[..|a + b| - 1] == a + b[..n] && (ra + rb)[..|a + b| - 1] == ra + rb[..n];
      if b[n] != c {
        ScatterSkips(a, ra, b[..n], rb[..n], c);
        assert c in b ==> c in b[..n];
      }
    }
  }

  lemma {:induction false} ScatterFinds(checks: seq<Check>, results: seq<CallResult>, c: Check, j: nat)
    requires |results| == |checks| && j < |checks| && checks[j] == c
    requires forall k :: 0 <= k < |checks| && checks[k] == c ==> k == j
    ensures ScatteredReading(checks, results, c) == Value(results[j])
  {
    var n := |checks| - 1;
    if j < n {
      ScatterFinds(checks[..n], results[..n], c, j);
    }
  }

  lemma KindOnce(o: Order, i: nat, j: nat)
    requires i < |CheckKinds(o)| && j < |CheckKinds(o)| && CheckKinds(o)[i] == CheckKinds(o)[j]
    ensures i == j
  {
  }

  lemma {:induction false} OwnReading(node: Node<ReadCall>, o: Order, kind: CheckKind)
    requires CanAsk(o)
    ensures ScatteredReading(ChecksOf(o), EachAlone(node, CallsOf(o)), Check(o.uid, kind)) == Reading(node, o, kind)
  {
    var checks, results := ChecksOf(o), EachAlone(node, CallsOf(o));
    if kind in CheckKinds(o) {
      var j :| 0 <= j < |CheckKinds(o)| && CheckKinds(o)[j] == kind;
      forall k | 0 <= k < |checks| && checks[k] == Check(o.uid, kind) ensures k == j {
        KindOnce(o, k, j);
      }
      ScatterFinds(checks, results, Check(o.uid, kind), j);
    } else {
      ScatterSkips([], [], checks, results, Check(o.uid, kind));
      assert [] + checks == checks && [] + results == results;
      assert Check(o.uid, kind) !in checks;
    }
  }

  /** The last order of a batch reads what it reads alone. */
  lemma {:induction false} LastReading(node: Node<ReadCall>, a: seq<Check>, ra: seq<CallResult>, o: Order, kind: CheckKind)
    requires CanAsk(o) && |ra| == |a| && ScatteredReading(a, ra, Check(o.uid, kind)) == None
    ensures ScatteredReading(a + ChecksOf(o), ra + EachAlone(node, CallsOf(o)), Check(o.uid, kind)) == Reading(node, o, kind)
  {
    var c := Check(o.uid, kind);
    ScatterSkips(a, ra, ChecksOf(o), EachAlone(node, CallsOf(o)), c);
    OwnReading(node, o, kind);
    if c !in ChecksOf(o) {
      assert forall j :: 0 <= j < |CheckKinds(o)| ==> ChecksOf(o)[j] == Check(o.uid, CheckKinds(o)[j]);
      assert kind !in CheckKinds(o);
    }
  }

  lemma {:induction false} ResultsSplit(node: Node<ReadCall>, orders: seq<Order>)
    requires orders != [] && Encodable(orders)
    ensures var n := |orders| - 1;
            EachAlone(node, AllCalls(orders)) == EachAlone(node, AllCalls(orders[..n])) + EachAlone(node, CallsOf(orders[n]))
  {
    EachAloneConcat(node, AllCalls(orders[..|orders| - 1]), CallsOf(orders[|orders| - 1]));
  }

  /** What scattering leaves for a check, after a batch in which every call is answered on its own. */
  function BatchReading(node: Node<ReadCall>, orders: seq<Order>, c: Check): Option<nat>
    requires Encodable(orders)
  {
    ScatteredReading(AllChecks(orders), EachAlone(node, AllCalls(orders)), c)
  }

  lemma OthersUnread(o: Order, c: Check)
    requires o.uid != c.uid && CanAsk(o)
    ensures c !in ChecksOf(o)
  {
  }

  /** A check of another order reads the same without the last order. */
  lemma SkipsLast(node: Node<ReadCall>, orders: seq<Order>, c: Check)
    requires orders != [] && Encodable(orders) && orders[|orders| - 1].uid != c.uid
    ensures var rest := orders[..|orders| - 1];
            BatchReading(node, orders, c)
            == BatchReading(node, rest, c)
  {
    var rest, last := orders[..|orders| - 1], orders[|orders| - 1];
    ResultsSplit(node, orders);
    OthersUnread(last, c);
    ScatterSkips(AllChecks(rest), EachAlone(node, AllCalls(rest)), ChecksOf(last), EachAlone(node, CallsOf(last)), c);
  }

  lemma {:induction false} NoReading(node: Node<ReadCall>, orders: seq<Order>, c: Check)
    requires Encodable(orders) && forall j :: 0 <= j < |orders| ==> orders[j].uid != c.uid
    ensures BatchReading(node, orders, c) == None
  {
    if orders != [] {
      SkipsLast(node, orders, c);
      NoReading(node, orders[..|orders| - 1], c);
    }
  }

  lemma AlignedLast(node: Node<ReadCall>, orders: seq<Order>, kind: CheckKind)
    requires orders != [] && UniqueUids(orders) && Encodable(orders)
    ensures var last := orders[|orders| - 1];
            BatchReading(node, orders, Check(last.uid, kind)) == Reading(node, last, kind)
  {
    var rest, last := orders[..|orders| - 1], orders[|orders| - 1];
    ResultsSplit(node, orders);
    NoReading(node, rest, Check(last.uid, kind));
    LastReading(node, AllChecks(rest), EachAlone(node, AllCalls(rest)), last, kind);
  }

  lemma AllButLast(orders: seq<Order>, i: nat, rest: seq<Order>)
    requires UniqueUids(orders) && Encodable(orders) && i < |orders| - 1 && rest == orders[..|orders| - 1]
    ensures UniqueUids(rest) && Encodable(rest) && rest[i] == orders[i] && orders[|orders| - 1].uid != orders[i].uid
  {
  }

  /** Scattered over the whole batch, an order reads exactly what it reads alone. */
  lemma {:induction false} ScatterIsAligned(node: Node<ReadCall>, orders: seq<Order>, i: nat, o: Order, kind: CheckKind)
    requires UniqueUids(orders) && Encodable(orders) && i < |orders| && orders[i] == o
    ensures BatchReading(node, orders, Check(o.uid, kind)) == Reading(node, o, kind)
  {
    var n := |orders| - 1;
    if i < n {
      var rest := orders[..n];
      AllButLast(orders, i, rest);
      SkipsLast(node, orders, Check(o.uid, kind));
      ScatterIsAligned(node, rest, i, o, kind);
    } else {
      AlignedLast(node, orders, kind);
    }
  }

  function Decisions(node: Node<ReadCall>, orders: seq<Order>): (ds: seq<Option<Reason>>)
    requires Encodable(orders)
    ensures |ds| == |orders|
  {
    seq(|orders|, i requires 0 <= i < |orders| => Decision(node, orders[i]))
  }

  /** The reads of a batch all come back. */
  ghost predicate Readable(node: Node<ReadCall>, orders: seq<Order>) {
    Encodable(orders) && FitsOneByOne(node) && FaultFree(node, AllCalls(orders))
  }

  /** On a readable batch the scattered decisions are the decisions for each order alone. */
  lemma {:induction false} ScatteredIsPerOrder(node: Node<ReadCall>, orders: seq<Order>)
    requires UniqueUids(orders) && Readable(node, orders)
    ensures var results := AggregateResilient(node, AllCalls(orders));
      && results.Success? && |results.value| == |AllChecks(orders)|
      && ScatteredDecisions(orders, AllChecks(orders), results.value) == Decisions(node, orders)
  {
    BisectionIsOneByOne(node, AllCalls(orders));
    var results := EachAlone(node, AllCalls(orders));
    forall i | 0 <= i < |orders|
      ensures ScatteredDecision(AllChecks(orders), results, orders[i]) == Decision(node, orders[i])
    {
      ScatterIsAligned(node, orders, i, orders[i], Filled);
      ScatterIsAligned(node, orders, i, orders[i], PreSig);
      ScatterIsAligned(node, orders, i, orders[i], Balance);
      ScatterIsAligned(node, orders, i, orders[i], Allowance);
    }
    assert ScatteredDecisions(orders, AllChecks(orders), results) == Decisions(node, orders);
  }

  // ---- the decision in the chain's own answers ------------------------------------------------------

  /** Asked alone, the call comes back with this number. */
  ghost predicate Answers(node: Node<ReadCall>, call: ReadCall, v: nat) {
    !node.overflows([call]) && Returns(node, call, v)
  }

  /** How much of an order is filled, as far as the chain tells. */
  ghost predicate FilledSoFar(node: Node<ReadCall>, uid: Bytes, filled: nat) {
    Answers(node, FilledAmount(uid), filled) || (filled == 0 && forall v :: !Answers(node, FilledAmount(uid), v))
  }

  ghost predicate SaysExhausted(node: Node<ReadCall>, o: Order, uid: Bytes) {
    exists v :: Answers(node, FilledAmount(uid), v) && Exhausts(o, v)
  }

  ghost predicate SaysUnsigned(node: Node<ReadCall>, o: Order, uid: Bytes) {
    o.presign && Answers(node, PreSignature(uid), 0)
  }

  ghost predicate SaysPoor(node: Node<ReadCall>, o: Order, uid: Bytes) {
    o.erc20Funded && exists filled, v ::
      FilledSoFar(node, uid, filled) && Answers(node, BalanceOf(o.sellToken, o.owner), v) && Lacks(o, filled, v)
  }

  ghost predicate SaysUnapproved(node: Node<ReadCall>, o: Order, uid: Bytes) {
    o.erc20Funded && !o.hasPreInteractions && exists filled, v ::
      FilledSoFar(node, uid, filled) && Answers(node, AllowanceOf(o.sellToken, o.owner), v) && Lacks(o, filled, v)
  }

  /** The first thing in the chain's answers that speaks against the order. */
  ghost predicate RuledOut(node: Node<ReadCall>, o: Order, reason: Reason) {
    && UidBytes(o.uid).Some?
    && var uid := UidBytes(o.uid).value;
    match reason
    case AlreadyFilled => SaysExhausted(node, o, uid)
    case PresignatureMissing => !SaysExhausted(node, o, uid) && SaysUnsigned(node, o, uid)
    case InsufficientBalance => !SaysExhausted(node, o, uid) && !SaysUnsigned(node, o, uid) && SaysPoor(node, o, uid)
    case InsufficientAllowance =>
      !SaysExhausted(node, o, uid) && !SaysUnsigned(node, o, uid) && !SaysPoor(node, o, uid) && SaysUnapproved(node, o, uid)
  }

  lemma {:induction false} ReadingIsAnswer(node: Node<ReadCall>, o: Order, kind: CheckKind, call: ReadCall)
    requires CanAsk(o) && call == CallFor(o, kind)
    ensures forall v: nat :: Reading(node, o, kind) == Some(v) <==> kind in CheckKinds(o) && Answers(node, call, v)
  {
  }

  /** The filled amount the decision works with is the one the chain tells. */
  lemma {:induction false} FilledReading(node: Node<ReadCall>, o: Order, uid: Bytes)
    requires CanAsk(o) && UidBytes(o.uid) == Some(uid)
    ensures forall filled :: FilledSoFar(node, uid, filled)
                        <==> (filled == if Reading(node, o, Filled).Some? then Reading(node, o, Filled).value else 0)
  {
    ReadingIsAnswer(node, o, Filled, FilledAmount(uid));
  }

  lemma LacksExact(o: Order, reading: Option<nat>, filled: nat)
    requires filled == if reading.Some? then reading.value else 0
    ensures forall v: nat :: v < RequiredFunding(o, reading) <==> Lacks(o, filled, v)
  {
  }

  lemma {:induction false} FundingExact(node: Node<ReadCall>, o: Order, uid: Bytes)
    requires CanAsk(o) && UidBytes(o.uid) == Some(uid)
    ensures var required := RequiredFunding(o, Reading(node, o, Filled));
      && (SaysPoor(node, o, uid) <==> Short(Reading(node, o, Balance), required))
      && (SaysUnapproved(node, o, uid) <==> Short(Reading(node, o, Allowance), required))
  {
    var reading := Reading(node, o, Filled);
    var filled := if reading.Some? then reading.value else 0;
    ReadingIsAnswer(node, o, Balance, BalanceOf(o.sellToken, o.owner));
    ReadingIsAnswer(node, o, Allowance, AllowanceOf(o.sellToken, o.owner));
    FilledReading(node, o, uid);
    LacksExact(o, reading, filled);
    assert FilledSoFar(node, uid, filled);
  }

  /** An order judged alone falls for exactly what the chain answers about it. */
  lemma {:induction false} DecisionExact(node: Node<ReadCall>, o: Order)
    requires CanAsk(o)
    ensures forall reason :: Decision(node, o) == Some(reason) <==> RuledOut(node, o, reason)
  {
    var uid := UidBytes(o.uid).value;
    ReadingIsAnswer(node, o, Filled, FilledAmount(uid));
    ReadingIsAnswer(node, o, PreSig, PreSignature(uid));
    FundingExact(node, o, uid);
    assert SaysExhausted(node, o, uid)
      <==> Reading(node, o, Filled).Some? && Exhausts(o, Reading(node, o, Filled).value);
    assert SaysUnsigned(node, o, uid) <==> Reading(node, o, PreSig) == Some(0);
  }

  /** Every drop and every kept order, in the chain's own answers. */
  ghost predicate FilteredOnAnswers(node: Node<ReadCall>, orders: seq<Order>, kept: seq<Order>, dropped: map<Uid, Reason>) {
    && KeepsTheRest(orders, kept, dropped)
    && forall o, reason :: o in orders ==> ((o.uid in dropped && dropped[o.uid] == reason) <==> RuledOut(node, o, reason))
  }

  lemma {:induction false} DecisionsAreAnswers(node: Node<ReadCall>, orders: seq<Order>, kept: seq<Order>, dropped: map<Uid, Reason>)
    requires UniqueUids(orders) && Encodable(orders) && FilteredBy(orders, Decisions(node, orders), kept, dropped)
    ensures FilteredOnAnswers(node, orders, kept, dropped)
  {
    FilteredKeepsTheRest(orders, Decisions(node, orders), kept, dropped);
    forall o, reason | o in orders ensures (o.uid in dropped && dropped[o.uid] == reason) <==> RuledOut(node, o, reason) {
      var i :| 0 <= i < |orders| && orders[i] == o;
      assert Decisions(node, orders)[i] == Decision(node, o);
      DecisionExact(node, o);
    }
  }

  /** The batched filter is the per-order decision: on a node without other errors it keeps and drops, for
      the same reasons and in the same order, what judging each order alone would. */
  method FilterReadable(node: Node<ReadCall>, orders: seq<Order>) returns (kept: seq<Order>, dropped: map<Uid, Reason>)
    requires UniqueUids(orders) && Readable(node, orders)
    ensures FilteredBy(orders, Decisions(node, orders), kept, dropped)
    ensures FilteredOnAnswers(node, orders, kept, dropped)
  {
    ScatteredIsPerOrder(node, orders);
    kept, dropped := FilterValidOrders(node, orders);
    DecisionsAreAnswers(node, orders, kept, dropped);
  }

  // ---- is a funding drop justified? -----------------------------------------------------------------

  /** Sell-token amounts the router may debit from an order: a quoted amount of a sell, any input up to the
      limit of a buy. */
  predicate MayDebit(o: Order, amount: nat) {
    if o.kind.Sell? then amount in QuotedAmounts(o) else 0 < amount <= o.sellAmount
  }

  /** An order dropped for funding could not have paid any amount the router would debit: whatever is
      short of the requirement is short of every such amount. */
  ghost predicate FundingDropJustified(o: Order, filled: Option<nat>) {
    forall amount: nat :: MayDebit(o, amount) ==> RequiredFunding(o, filled) <= amount
  }

  /** Funding drops are justified for every sell and every partially fillable buy, at any filled amount. A
      fill-or-kill buy is judged by its worst case: the drop is justified only if that is also its best. */
  lemma FundingDropExact(o: Order, filled: Option<nat>)
    requires Signed(o)
    ensures FundingDropJustified(o, filled) <==> o.kind.Sell? || o.partiallyFillable || o.sellAmount == 1
  {
    if o.kind.Buy? && !o.partiallyFillable && o.sellAmount > 1 {
      assert MayDebit(o, 1);
    }
    if o.kind.Sell? {
      assert o.sellAmount / 2 <= 3 * o.sellAmount / 4 <= o.sellAmount;
    }
  }

  /** In particular a sell dropped for balance holds less than every amount the router would quote for it. */
  lemma DroppedSellCannotFill(o: Order, filled: Option<nat>, presig: Option<nat>, balance: Option<nat>, allowance: Option<nat>)
    requires Signed(o) && o.kind.Sell?
    ensures Decide(o, filled, presig, balance, allowance) == Some(InsufficientBalance) ==>
              balance.Some? && forall amount :: amount in QuotedAmounts(o) ==> balance.value < amount
    ensures Decide(o, filled, presig, balance, allowance) == Some(InsufficientAllowance) ==>
              allowance.Some? && forall amount :: amount in QuotedAmounts(o) ==> allowance.value < amount
  {
    FundingDropExact(o, filled);
    assert forall amount: nat :: amount in QuotedAmounts(o) ==> MayDebit(o, amount);
  }

  // ---- what the decision means on chain -------------------------------------------------------------

  /** The settlement contract's rule for executing `executed` more of an order: fill-or-kill orders once and
      in full, partially fillable ones up to their signed amount. */
  predicate Settleable(o: Order, filled: nat, executed: nat) {
    var target := if o.kind.Sell? then o.sellAmount else o.buyAmount;
    executed > 0 && if o.partiallyFillable then filled + executed <= target else filled == 0 && executed == target
  }

  /** An order is dropped as filled exactly when no execution of it can settle any more. */
  lemma FilledDropExact(o: Order, filled: Option<nat>, presig: Option<nat>, balance: Option<nat>, allowance: Option<nat>)
    requires Signed(o)
    ensures Decide(o, filled, presig, balance, allowance) == Some(AlreadyFilled)
       <==> filled.Some? && forall executed: nat :: !Settleable(o, filled.value, executed)
  {
    if filled.Some? {
      var target := if o.kind.Sell? then o.sellAmount else o.buyAmount;
      if filled.value < target && o.partiallyFillable {
        assert Settleable(o, filled.value, 1);
      }
      if filled.value == 0 {
        assert Settleable(o, 0, target);
      }
    }
  }

  /** When a kept sell can really be filled by the router, at an amount its owner holds and has approved: a
      fill-or-kill sell always, a partially fillable one exactly while the router's smallest fraction still fits into
      what is left of it. The fraction of a single unit is nothing, so that unit's funding goes unchecked. */
  lemma KeptSellExact(o: Order, filled: nat, presig: Option<nat>, balance: nat, allowance: nat)
    requires Signed(o) && o.kind.Sell? && Decide(o, Some(filled), presig, Some(balance), Some(allowance)) == None
    ensures (exists amount: nat :: amount in QuotedAmounts(o) && Settleable(o, filled, amount) && amount <= balance && amount <= allowance)
       <==> (o.partiallyFillable ==>
               if o.sellAmount == 1 then balance >= 1 && allowance >= 1 else filled + o.sellAmount / 2 <= o.sellAmount)
  {
    var half := o.sellAmount / 2;
    if !o.partiallyFillable {
      assert o.sellAmount in QuotedAmounts(o) && Settleable(o, filled, o.sellAmount);
    } else {
      assert QuotedAmounts(o) == [o.sellAmount, 3 * o.sellAmount / 4, half];
      if o.sellAmount == 1 {
        assert Settleable(o, filled, 1) && 1 in QuotedAmounts(o);
      } else if filled + half <= o.sellAmount {
        assert RequiredFunding(o, Some(filled)) == half;
        assert half in QuotedAmounts(o) && Settleable(o, filled, half);
      }
    }
  }
}
