/** Batched eth_calls with gas-overflow bisection (routing/multicall.py). */
module Multicall {
  import opened Wrappers

  type Byte = x: nat | x < 256
  type Bytes = seq<Byte>

  datatype CallResult = CallResult(success: bool, data: Bytes)

  datatype RpcError = GasOverflow | OtherError

  /** A node at one block. What a call returns does not depend on the batch it travels in; whether a
      batch blows the gas cap, or fails for another reason, is any function of the batch. */
  datatype Node<!C> = Node(
    eval: C -> CallResult,
    overflows: seq<C> -> bool,
    faults: seq<C> -> bool
  )

  const DROPPED: CallResult := CallResult(false, [])

  /** `aggregate`: one eth_call for the whole batch. */
  function Aggregate<C>(node: Node<C>, calls: seq<C>): Result<seq<CallResult>, RpcError> {
    if calls == [] then Success([])
    else if node.faults(calls) then Failure(OtherError)
    else if node.overflows(calls) then Failure(GasOverflow)
    else Success(seq(|calls|, i requires 0 <= i < |calls| => node.eval(calls[i])))
  }

  /** `aggregate_resilient`: halve an overflowing batch until it fits; drop a call that overflows alone;
      re-raise every other error. */
  function AggregateResilient<C>(node: Node<C>, calls: seq<C>): Result<seq<CallResult>, RpcError> {
    if calls == [] then Success([])
    else
      var attempt := Aggregate(node, calls);
      if attempt.Success? then attempt
      else if attempt.error != GasOverflow then attempt
      else if |calls| == 1 then Success([DROPPED])
      else
        var mid := |calls| / 2;
        var left := AggregateResilient(node, calls[..mid]);
        if left.Failure? then left
        else
          var right := AggregateResilient(node, calls[mid..]);
          if right.Failure? then right else Success(left.value + right.value)
  }

  /** How many eth_calls `AggregateResilient` issues. */
  function RoundTrips<C>(node: Node<C>, calls: seq<C>): nat {
    if calls == [] then 0
    else if node.faults(calls) || !node.overflows(calls) || |calls| == 1 then 1
    else
      var mid := |calls| / 2;
      var left := RoundTrips(node, calls[..mid]);
      if AggregateResilient(node, calls[..mid]).Failure? then 1 + left
      else 1 + left + RoundTrips(node, calls[mid..])
  }

  /** The simple form: a call sent on its own. */
  function OneByOne<C>(node: Node<C>, c: C): CallResult {
    if node.overflows([c]) then DROPPED else node.eval(c)
  }

  function EachAlone<C>(node: Node<C>, calls: seq<C>): (results: seq<CallResult>)
    ensures |results| == |calls|
  {
    seq(|calls|, i requires 0 <= i < |calls| => OneByOne(node, calls[i]))
  }

  lemma EachAloneConcat<C>(node: Node<C>, a: seq<C>, b: seq<C>)
    ensures EachAlone(node, a + b) == EachAlone(node, a) + EachAlone(node, b)
  {
  }

  /** A batch that fits the gas cap also fits when its calls are sent alone. */
  ghost predicate FitsOneByOne<C(!new)>(node: Node<C>) {
    forall calls: seq<C>, c: C :: c in calls && !node.overflows(calls) ==> !node.overflows([c])
  }

  /** No contiguous part of the batch meets an error other than the gas cap. */
  ghost predicate FaultFree<C>(node: Node<C>, calls: seq<C>) {
    forall i, j :: 0 <= i < j <= |calls| ==> !node.faults(calls[i..j])
  }

  lemma SliceOfSlice<T>(s: seq<T>, lo: nat, hi: nat, i: nat, j: nat)
    requires lo <= hi <= |s| && i <= j <= hi - lo
    ensures s[lo..hi][i..j] == s[lo + i..lo + j]
  {
    var outer := s[lo..hi];
    assert |outer[i..j]| == |s[lo + i..lo + j]|;
    forall k | 0 <= k < j - i
      ensures outer[i..j][k] == s[lo + i..lo + j][k]
    {
    }
  }

  lemma FaultFreeSlice<C>(node: Node<C>, calls: seq<C>, lo: nat, hi: nat)
    requires lo <= hi <= |calls| && FaultFree(node, calls)
    ensures FaultFree(node, calls[lo..hi])
  {
    forall i, j | 0 <= i < j <= hi - lo
      ensures !node.faults(calls[lo..hi][i..j])
    {
      SliceOfSlice(calls, lo, hi, i, j);
    }
  }

  /** One result per call, each the call's own or a drop, and only a call that overflows alone is dropped. */
  ghost predicate Aligned<C>(node: Node<C>, calls: seq<C>, results: seq<CallResult>) {
    && |results| == |calls|
    && forall i :: 0 <= i < |calls| ==>
         results[i] == node.eval(calls[i]) || (results[i] == DROPPED && node.overflows([calls[i]]))
  }

  lemma AlignedJoin<C>(node: Node<C>, calls: seq<C>, mid: nat, left: seq<CallResult>, right: seq<CallResult>)
    requires mid <= |calls| && Aligned(node, calls[..mid], left) && Aligned(node, calls[mid..], right)
    ensures Aligned(node, calls, left + right)
  {
  }

  lemma {:induction false} BisectionAligned<C>(node: Node<C>, calls: seq<C>)
    ensures AggregateResilient(node, calls).Success? ==> Aligned(node, calls, AggregateResilient(node, calls).value)
    decreases |calls|
  {
    if calls != [] && node.overflows(calls) && !node.faults(calls) {
      if |calls| == 1 {
        assert calls == [calls[0]];
      } else if AggregateResilient(node, calls).Success? {
        var mid := |calls| / 2;
        BisectionAligned(node, calls[..mid]);
        BisectionAligned(node, calls[mid..]);
        AlignedJoin(node, calls, mid, AggregateResilient(node, calls[..mid]).value, AggregateResilient(node, calls[mid..]).value);
      }
    }
  }

  /** Bisection raises nothing when no part of the batch meets an error other than the gas cap. */
  lemma {:induction false} FaultFreeSucceeds<C>(node: Node<C>, calls: seq<C>)
    requires FaultFree(node, calls)
    ensures AggregateResilient(node, calls).Success?
    decreases |calls|
  {
    if calls != [] {
      assert calls[0..|calls|] == calls;
      if node.overflows(calls) && |calls| > 1 {
        var mid := |calls| / 2;
        FaultFreeSlice(node, calls, 0, mid);
        FaultFreeSlice(node, calls, mid, |calls|);
        FaultFreeSucceeds(node, calls[..mid]);
        FaultFreeSucceeds(node, calls[mid..]);
      }
    }
  }

  /** The gas cap is never what is raised. */
  lemma {:induction false} NeverRaisesOverflow<C>(node: Node<C>, calls: seq<C>)
    ensures AggregateResilient(node, calls).Failure? ==> AggregateResilient(node, calls).error == OtherError
    decreases |calls|
  {
    if |calls| > 1 && node.overflows(calls) && !node.faults(calls) {
      NeverRaisesOverflow(node, calls[..|calls| / 2]);
      NeverRaisesOverflow(node, calls[|calls| / 2..]);
    }
  }

  /** With no hypothesis on the node: results stay aligned with the calls, a result is the call's own or
      a drop, only a call that overflows alone is dropped, and what is raised is never the gas cap but
      an error met by some contiguous part of the batch. */
  lemma {:induction false} BisectionIsSound<C>(node: Node<C>, calls: seq<C>)
    ensures var r := AggregateResilient(node, calls);
      && (r.Success? ==> Aligned(node, calls, r.value))
      && (r.Failure? ==> r.error == OtherError && exists i, j :: 0 <= i < j <= |calls| && node.faults(calls[i..j]))
  {
    BisectionAligned(node, calls);
    NeverRaisesOverflow(node, calls);
    if FaultFree(node, calls) {
      FaultFreeSucceeds(node, calls);
    }
  }

  /** Whenever bisection returns, and whatever errors other batches meet, it returns what sending every call
      on its own would. */
  lemma {:induction false} BisectionAgrees<C(!new)>(node: Node<C>, calls: seq<C>)
    requires FitsOneByOne(node)
    ensures AggregateResilient(node, calls).Success? ==> AggregateResilient(node, calls).value == EachAlone(node, calls)
    decreases |calls|
  {
    if calls == [] || AggregateResilient(node, calls).Failure? {
      return;
    }
    if !node.overflows(calls) {
      assert forall i :: 0 <= i < |calls| ==> calls[i] in calls;
      assert Aggregate(node, calls).value == EachAlone(node, calls);
    } else if |calls| == 1 {
      assert calls == [calls[0]];
      assert EachAlone(node, calls) == [DROPPED];
    } else {
      var mid := |calls| / 2;
      BisectionAgrees(node, calls[..mid]);
      BisectionAgrees(node, calls[mid..]);
      assert EachAlone(node, calls) == EachAlone(node, calls[..mid]) + EachAlone(node, calls[mid..]);
    }
  }

  /** Without other errors, bisection is sending every call on its own: one result per call, in order,
      with position `i` dropped exactly when call `i` overflows alone. */
  lemma {:induction false} BisectionIsOneByOne<C(!new)>(node: Node<C>, calls: seq<C>)
    requires FitsOneByOne(node) && FaultFree(node, calls)
    ensures AggregateResilient(node, calls) == Success(EachAlone(node, calls))
  {
    FaultFreeSucceeds(node, calls);
    BisectionAgrees(node, calls);
  }

  /** Bisecting `n` calls costs at most `2n - 1` round trips. */
  lemma {:induction false} RoundTripBound<C>(node: Node<C>, calls: seq<C>)
    requires calls != []
    ensures 1 <= RoundTrips(node, calls) <= 2 * |calls| - 1
    decreases |calls|
  {
    if |calls| > 1 {
      RoundTripBound(node, calls[..|calls| / 2]);
      RoundTripBound(node, calls[|calls| / 2..]);
    }
  }

  /** The bound is met when nothing fits. */
  lemma {:induction false} RoundTripBoundMet<C(!new)>(node: Node<C>, calls: seq<C>)
    requires calls != []
    requires forall b: seq<C> {:trigger node.overflows(b)} {:trigger node.faults(b)} :: node.overflows(b) && !node.faults(b)
    ensures RoundTrips(node, calls) == 2 * |calls| - 1
    decreases |calls|
  {
    if |calls| > 1 {
      var mid := |calls| / 2;
      RoundTripBoundMet(node, calls[..mid]);
      RoundTripBoundMet(node, calls[mid..]);
      BisectionIsSound(node, calls[..mid]);
    }
  }

  // ---- few offenders cost little --------------------------------------------------------------------

  /** How often `n` things can be halved. */
  function Halvings(n: nat): nat {
    if n <= 1 then 0 else 1 + Halvings(n - n / 2)
  }

  lemma {:induction false} HalvingsGrow(m: nat, n: nat)
    requires m <= n
    ensures Halvings(m) <= Halvings(n)
    decreases n
  {
    if m > 1 {
      HalvingsGrow(m - m / 2, n - n / 2);
    }
  }

  function PowerOf2(k: nat): nat {
    if k == 0 then 1 else 2 * PowerOf2(k - 1)
  }

  /** The number of halvings is the logarithm to the base 2, rounded up. */
  lemma {:induction false} HalvingsExact(n: nat)
    requires n > 1
    ensures PowerOf2(Halvings(n) - 1) < n <= PowerOf2(Halvings(n))
  {
    var half := n - n / 2;
    if half > 1 {
      HalvingsExact(half);
    }
  }

  function Offenders<C>(calls: seq<C>, offends: C -> bool): nat {
    if calls == [] then 0
    else Offenders(calls[..|calls| - 1], offends) + if offends(calls[|calls| - 1]) then 1 else 0
  }

  lemma {:induction false} OffendersSplit<C>(a: seq<C>, b: seq<C>, offends: C -> bool)
    ensures Offenders(a + b, offends) == Offenders(a, offends) + Offenders(b, offends)
    decreases |b|
  {
    if b == [] {
      assert a + b == a;
    } else {
      var n := |b| - 1;
      assert (a + b)[..|a + b| - 1] == a + b[..n];
      OffendersSplit(a, b[..n], offends);
    }
  }

  lemma {:induction false} NoOffender<C>(calls: seq<C>, offends: C -> bool)
    requires Offenders(calls, offends) == 0
    ensures forall c :: c in calls ==> !offends(c)
  {
    if calls != [] {
      NoOffender(calls[..|calls| - 1], offends);
      assert calls == calls[..|calls| - 1] + [calls[|calls| - 1]];
    }
  }

  /** Only a batch with an offending call in it overflows. */
  ghost predicate OffendersOverflow<C(!new)>(node: Node<C>, offends: C -> bool) {
    forall calls: seq<C> :: node.overflows(calls) ==> exists c :: c in calls && offends(c)
  }

  lemma {:induction false} RoundTripsSplit<C>(node: Node<C>, calls: seq<C>)
    requires |calls| > 1
    ensures RoundTrips(node, calls) <= 1 + RoundTrips(node, calls[..|calls| / 2]) + RoundTrips(node, calls[|calls| / 2..])
  {
  }

  lemma {:induction false} OneTrip<C(!new)>(node: Node<C>, calls: seq<C>, offends: C -> bool)
    requires OffendersOverflow(node, offends) && (Offenders(calls, offends) == 0 || |calls| <= 1)
    ensures RoundTrips(node, calls) <= 1
  {
    if Offenders(calls, offends) == 0 {
      NoOffender(calls, offends);
    }
  }

  /** What bisection may cost: a round trip, and two for every offending call and halving. */
  ghost predicate Frugal<C>(node: Node<C>, calls: seq<C>, offends: C -> bool) {
    RoundTrips(node, calls) <= 1 + 2 * (Offenders(calls, offends) * Halvings(|calls|))
  }

  lemma {:induction false} FrugalHalves<C>(node: Node<C>, calls: seq<C>, offends: C -> bool, left: seq<C>, right: seq<C>)
    requires |calls| > 1 && Offenders(calls, offends) > 0
    requires left == calls[..|calls| / 2] && right == calls[|calls| / 2..]
    requires Frugal(node, left, offends) && Frugal(node, right, offends)
    ensures Frugal(node, calls, offends)
  {
    assert left + right == calls;
    OffendersSplit(left, right, offends);
    HalvingsGrow(|left|, |right|);
    assert Halvings(|calls|) == 1 + Halvings(|right|);
    RoundTripsSplit(node, calls);
    HalvesCost(Offenders(left, offends), Offenders(right, offends), Offenders(calls, offends), Halvings(|left|),
               Halvings(|right|), Halvings(|calls|), RoundTrips(node, left), RoundTrips(node, right));
  }

  /** Bisection homes in on what overflows: each offending call costs at most two round trips for every halving of the
      batch. */
  lemma {:induction false} FewOffenders<C(!new)>(node: Node<C>, calls: seq<C>, offends: C -> bool)
    requires OffendersOverflow(node, offends)
    ensures Frugal(node, calls, offends)
    decreases |calls|
  {
    if Offenders(calls, offends) == 0 || |calls| <= 1 {
      OneTrip(node, calls, offends);
    } else {
      var left, right := calls[..|calls| / 2], calls[|calls| / 2..];
      FewOffenders(node, left, offends);
      FewOffenders(node, right, offends);
      FrugalHalves(node, calls, offends, left, right);
    }
  }

  lemma HalvesCost(left: nat, right: nat, all: nat, halvings: nat, more: nat, most: nat, leftTrips: nat, rightTrips: nat)
    requires all == left + right > 0 && halvings <= more && most == 1 + more
    requires leftTrips <= 1 + 2 * (left * halvings) && rightTrips <= 1 + 2 * (right * more)
    ensures 1 + leftTrips + rightTrips <= 1 + 2 * (all * most)
  {
    assert left * halvings <= left * more;
    assert all * most == left + right + left * more + right * more;
  }
}
