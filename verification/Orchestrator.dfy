/** The strategy chain and its gates (solver/orchestrator.py): collect solutions, compose, and submit the
    first candidate both gates let through. */
module Orchestrator {
  import opened Wrappers
  import opened Sequences

  /** How one strategy ended. */
  datatype StrategyResult<S> = TimedOut | Errored | SolvedWith(solution: S) | NoResult

  datatype Status = SolvedStatus | NoSolutionStatus | ErrorStatus | TimeoutStatus | RejectedStatus

  datatype AttemptRecord<S> = AttemptRecord(strategy: string, status: Status, solution: Option<S>)

  datatype Candidate<S> = Candidate(strategy: string, solution: S)

  /** What the EBBO validator makes of a solution; an exception inside it must not deny output. */
  datatype EbboVerdict = EbboPasses | EbboRejects | EbboRaised

  /** What the feasibility gate makes of a solution: anything but a proof of feasibility blocks it. */
  datatype Feasibility = Feasible | Phantom | Unknown | GateTimeout | GateError

  /** `ebbo` or `gate` is None where the check is not wired up, `compose` where the composer is absent. The
      composer is an arbitrary function of the candidates with their surplus estimates. */
  datatype Setup<!S> = Setup(
    runAll: bool,
    composeOn: bool,
    ebbo: Option<S -> EbboVerdict>,
    gate: Option<S -> Feasibility>,
    surplus: S -> nat,
    compose: Option<seq<(Candidate<S>, nat)> -> Option<S>>
  )

  function RecordOf<S>(name: string, r: StrategyResult<S>): AttemptRecord<S> {
    match r
    case TimedOut => AttemptRecord(name, TimeoutStatus, None)
    case Errored => AttemptRecord(name, ErrorStatus, None)
    case SolvedWith(s) => AttemptRecord(name, SolvedStatus, Some(s))
    case NoResult => AttemptRecord(name, NoSolutionStatus, None)
  }

  /** Strategies run until the end, or until the first solution when `runAll` is off. */
  function Ran<S>(runAll: bool, results: seq<(string, StrategyResult<S>)>): seq<(string, StrategyResult<S>)> {
    if results == [] then []
    else if results[0].1.SolvedWith? && !runAll then [results[0]]
    else [results[0]] + Ran(runAll, results[1..])
  }

  function Records<S>(ran: seq<(string, StrategyResult<S>)>): (records: seq<AttemptRecord<S>>)
    ensures |records| == |ran|
  {
    seq(|ran|, i requires 0 <= i < |ran| => RecordOf(ran[i].0, ran[i].1))
  }

  function Winners<S>(ran: seq<(string, StrategyResult<S>)>): seq<Candidate<S>> {
    if ran == [] then []
    else
      var n := |ran| - 1;
      Winners(ran[..n]) + (if ran[n].1.SolvedWith? then [Candidate(ran[n].0, ran[n].1.solution)] else [])
  }

  /** Everything but the naive baseline. */
  function Composable<S>(winners: seq<Candidate<S>>): seq<Candidate<S>> {
    if winners == [] then []
    else
      var n := |winners| - 1;
      Composable(winners[..n]) + (if winners[n].strategy != "naive" then [winners[n]] else [])
  }

  predicate PassesEbbo<S>(setup: Setup<S>, s: S) {
    setup.ebbo.None? || setup.ebbo.value(s) != EbboRejects
  }

  predicate PassesGate<S>(setup: Setup<S>, s: S) {
    setup.gate.None? || setup.gate.value(s) == Feasible
  }

  predicate Accepted<S>(setup: Setup<S>, s: S) {
    PassesEbbo(setup, s) && PassesGate(setup, s)
  }

  /** The record a rejected candidate leaves. */
  function RejectionOf<S>(setup: Setup<S>, s: S): seq<AttemptRecord<S>> {
    if !PassesEbbo(setup, s) then [AttemptRecord("ebbo-rejected", RejectedStatus, Some(s))]
    else if !PassesGate(setup, s) then [AttemptRecord("feasibility-rejected", RejectedStatus, Some(s))]
    else []
  }

  function WithSurplus<S>(setup: Setup<S>, cs: seq<Candidate<S>>): (ranked: seq<(Candidate<S>, nat)>)
    ensures |ranked| == |cs|
  {
    seq(|cs|, i requires 0 <= i < |cs| => (cs[i], setup.surplus(cs[i].solution)))
  }

  /** The composed candidate, when there is something to compose. */
  function Composed<S>(setup: Setup<S>, cs: seq<Candidate<S>>): Option<S> {
    if setup.composeOn && |cs| > 1 && setup.compose.Some? then setup.compose.value(WithSurplus(setup, cs)) else None
  }

  function Solutions<S>(cs: seq<Candidate<S>>): (solutions: seq<S>)
    ensures |solutions| == |cs|
  {
    seq(|cs|, i requires 0 <= i < |cs| => cs[i].solution)
  }

  /** The candidates in the order they are put to the gates. */
  function Queue<S>(setup: Setup<S>, cs: seq<Candidate<S>>): seq<S> {
    var composed := Composed(setup, cs);
    (if composed.Some? then [composed.value] else []) + Solutions(cs)
  }

  /** The first candidate of a queue both gates accept. */
  function FirstAccepted<S>(setup: Setup<S>, queue: seq<S>): Option<S> {
    if queue == [] then None
    else if Accepted(setup, queue[0]) then Some(queue[0])
    else FirstAccepted(setup, queue[1..])
  }

  /** The rejections recorded on the way to it. */
  function Rejections<S>(setup: Setup<S>, queue: seq<S>): seq<AttemptRecord<S>> {
    if queue == [] || Accepted(setup, queue[0]) then []
    else RejectionOf(setup, queue[0]) + Rejections(setup, queue[1..])
  }

  /** The caller's list of attempts, appended to in place so that it survives a cancellation. */
  class AttemptLog<S> {
    var records: seq<AttemptRecord<S>>

    constructor ()
      ensures records == []
    {
      records := [];
    }

    method Append(r: AttemptRecord<S>)
      modifies this
      ensures records == old(records) + [r]
    {
      records := records + [r];
    }
  }

  /** `_ebbo_validate` then `_feasibility_validate`. */
  method PassGates<S>(setup: Setup<S>, log: AttemptLog<S>, s: S) returns (ok: bool)
    modifies log
    ensures ok == Accepted(setup, s)
    ensures log.records == old(log.records) + RejectionOf(setup, s)
  {
    if setup.ebbo.Some? {
      var verdict := setup.ebbo.value(s);
      if verdict == EbboRejects {
        log.Append(AttemptRecord("ebbo-rejected", RejectedStatus, Some(s)));
        return false;
      }
    }
    if setup.gate.Some? {
      var feasible := setup.gate.value(s);
      if feasible != Feasible {
        log.Append(AttemptRecord("feasibility-rejected", RejectedStatus, Some(s)));
        return false;
      }
    }
    return true;
  }

  /** The strategy loop. */
  method RunStrategies<S>(runAll: bool, log: AttemptLog<S>, results: seq<(string, StrategyResult<S>)>)
    returns (winners: seq<Candidate<S>>)
    modifies log
    ensures winners == Winners(Ran(runAll, results))
    ensures log.records == old(log.records) + Records(Ran(runAll, results))
  {
    winners := [];
    ghost var ran: seq<(string, StrategyResult<S>)> := [];
    var i := 0;
    while i < |results|
      invariant 0 <= i <= |results|
      invariant Ran(runAll, results) == ran + Ran(runAll, results[i..])
      invariant winners == Winners(ran) && log.records == old(log.records) + Records(ran)
    {
      var (name, r) := results[i];
      RanStep(runAll, ran, results, i);
      AppendAssoc(old(log.records), Records(ran), [RecordOf(name, r)]);
      ran := ran + [results[i]];
      log.Append(RecordOf(name, r));
      if r.SolvedWith? {
        winners := winners + [Candidate(name, r.solution)];
        if !runAll {
          return winners;
        }
      }
      i := i + 1;
    }
    assert ran + [] == ran;
  }

  lemma {:induction false} RanStep<S>(runAll: bool, ran: seq<(string, StrategyResult<S>)>, results: seq<(string, StrategyResult<S>)>, i: nat)
    requires i < |results|
    ensures var next := ran + [results[i]];
      && Winners(next) == Winners(ran)
           + (if results[i].1.SolvedWith? then [Candidate(results[i].0, results[i].1.solution)] else [])
      && Records(next) == Records(ran) + [RecordOf(results[i].0, results[i].1)]
      && ran + Ran(runAll, results[i..])
         == if results[i].1.SolvedWith? && !runAll then next else next + Ran(runAll, results[i + 1..])
  {
    assert results[i..][1..] == results[i + 1..];
    assert (ran + [results[i]])[..|ran|] == ran;
    var rest := Ran(runAll, results[i + 1..]);
    assert ran + ([results[i]] + rest) == ran + [results[i]] + rest;
  }

  method DropNaive<S>(winners: seq<Candidate<S>>) returns (cs: seq<Candidate<S>>)
    ensures cs == Composable(winners)
  {
    cs := [];
    for i := 0 to |winners|
      invariant cs == Composable(winners[..i])
    {
      assert winners[..i + 1][..i] == winners[..i];
      if winners[i].strategy != "naive" {
        cs := cs + [winners[i]];
      }
    }
    assert winners[..|winners|] == winners;
  }

  /** The composer stage: its record, its gates. */
  method TryComposed<S>(setup: Setup<S>, log: AttemptLog<S>, cs: seq<Candidate<S>>) returns (final: Option<S>)
    modifies log
    ensures var c := Composed(setup, cs);
      && final == (if c.Some? && Accepted(setup, c.value) then c else None)
      && log.records == old(log.records)
           + (if c.Some? then ComposerRecord(c) + RejectionOf(setup, c.value) else [])
  {
    if setup.composeOn && |cs| > 1 {
      if setup.compose.Some? {
        var composed := setup.compose.value(WithSurplus(setup, cs));
        if composed.Some? {
          log.Append(AttemptRecord("composer", SolvedStatus, composed));
          var ok := PassGates(setup, log, composed.value);
          if ok {
            return composed;
          }
        }
      }
    }
    return None;
  }

  /** The fallback chain over the collected candidates. */
  method TryEach<S>(setup: Setup<S>, log: AttemptLog<S>, cs: seq<Candidate<S>>) returns (final: Option<S>)
    modifies log
    ensures var queue := Solutions(cs);
      && final == FirstAccepted(setup, queue)
      && log.records == old(log.records) + Rejections(setup, queue)
  {
    ghost var queue: seq<S> := Solutions(cs);
    var i := 0;
    while i < |cs|
      invariant 0 <= i <= |cs|
      invariant FirstAccepted(setup, queue) == FirstAccepted(setup, queue[i..])
      invariant old(log.records) + Rejections(setup, queue) == log.records + Rejections(setup, queue[i..])
    {
      assert queue[i..][1..] == queue[i + 1..];
      var ok := PassGates(setup, log, cs[i].solution);
      if ok {
        return Some(cs[i].solution);
      }
      i := i + 1;
    }
    return None;
  }

  function ComposerRecord<S>(composed: Option<S>): seq<AttemptRecord<S>> {
    if composed.Some? then [AttemptRecord("composer", SolvedStatus, composed)] else []
  }

  /** The composed solution first, then each candidate on its own. */
  method TryCandidates<S>(setup: Setup<S>, log: AttemptLog<S>, cs: seq<Candidate<S>>) returns (final: Option<S>)
    modifies log
    ensures final == FirstAccepted(setup, Queue(setup, cs))
    ensures log.records == old(log.records) + (ComposerRecord(Composed(setup, cs)) + Rejections(setup, Queue(setup, cs)))
  {
    QueueSplits(setup, cs);
    final := TryComposed(setup, log, cs);
    if final.None? {
      final := TryEach(setup, log, cs);
    }
  }

  /** Everything `solve` appends to the log. */
  function Trace<S>(setup: Setup<S>, results: seq<(string, StrategyResult<S>)>): seq<AttemptRecord<S>> {
    var ran := Ran(setup.runAll, results);
    var cs := Composable(Winners(ran));
    Records(ran) + (ComposerRecord(Composed(setup, cs)) + Rejections(setup, Queue(setup, cs)))
  }

  /** `SolverOrchestrator.solve`. */
  method Solve<S>(setup: Setup<S>, log: AttemptLog<S>, results: seq<(string, StrategyResult<S>)>) returns (final: Option<S>)
    modifies log
    ensures final == FirstAccepted(setup, Queue(setup, Composable(Winners(Ran(setup.runAll, results)))))
    ensures log.records == old(log.records) + Trace(setup, results)
  {
    var winners := RunStrategies(setup.runAll, log, results);
    var cs := DropNaive(winners);
    final := TryCandidates(setup, log, cs);
    AppendAssoc(old(log.records), Records(Ran(setup.runAll, results)),
                ComposerRecord(Composed(setup, cs)) + Rejections(setup, Queue(setup, cs)));
  }

  /** A strategy at the head of the list: what it does to the list of those that ran. */
  lemma {:induction false} RanHead<S>(runAll: bool, first: (string, StrategyResult<S>), rest: seq<(string, StrategyResult<S>)>)
    ensures Ran(runAll, [first] + rest) == [first] + (if first.1.SolvedWith? && !runAll then [] else Ran(runAll, rest))
  {
    assert ([first] + rest)[0] == first && ([first] + rest)[1..] == rest;
  }

  function WinnerOf<S>(first: (string, StrategyResult<S>)): seq<Candidate<S>> {
    if first.1.SolvedWith? then [Candidate(first.0, first.1.solution)] else []
  }

  lemma {:induction false} WinnersHead<S>(first: (string, StrategyResult<S>), ran: seq<(string, StrategyResult<S>)>)
    ensures Winners([first] + ran) == WinnerOf(first) + Winners(ran)
  {
    if ran == [] {
      assert [first] + ran == [first] && [first][..0] == [];
    } else {
      assert ([first] + ran)[..|ran|] == [first] + ran[..|ran| - 1];
      WinnersHead(first, ran[..|ran| - 1]);
    }
  }

  lemma {:induction false} ComposableHead<S>(c: Candidate<S>, winners: seq<Candidate<S>>)
    ensures Composable([c] + winners) == (if c.strategy != "naive" then [c] else []) + Composable(winners)
  {
    if winners == [] {
      assert [c] + winners == [c] && [c][..0] == [];
    } else {
      assert ([c] + winners)[..|winners|] == [c] + winners[..|winners| - 1];
      ComposableHead(c, winners[..|winners| - 1]);
    }
  }

  /** The candidates of a list that starts with a strategy other than the naive one: its own, if it has one, then
      those of the strategies that ran after it. */
  lemma {:induction false} CandidatesHead<S>(runAll: bool, first: (string, StrategyResult<S>), rest: seq<(string, StrategyResult<S>)>)
    requires first.0 != "naive"
    ensures var later := if first.1.SolvedWith? && !runAll then [] else Ran(runAll, rest);
            Composable(Winners(Ran(runAll, [first] + rest))) == WinnerOf(first) + Composable(Winners(later))
  {
    var later := if first.1.SolvedWith? && !runAll then [] else Ran(runAll, rest);
    RanHead(runAll, first, rest);
    WinnersHead(first, later);
    if first.1.SolvedWith? {
      ComposableHead(WinnerOf(first)[0], Winners(later));
    } else {
      assert [] + Winners(later) == Winners(later);
    }
  }

  /** What is submitted, by stages: the composed solution if both gates accept it, else the head's own, else the first
      accepted of the rest. */
  lemma {:induction false} SubmittedByStages<S>(setup: Setup<S>, head: seq<Candidate<S>>, tail: seq<Candidate<S>>)
    requires |head| <= 1
    ensures var c := Composed(setup, head + tail);
            FirstAccepted(setup, Queue(setup, head + tail))
            == if c.Some? && Accepted(setup, c.value) then c
               else if head != [] && Accepted(setup, head[0].solution) then Some(head[0].solution)
               else FirstAccepted(setup, Solutions(tail))
  {
    QueueSplits(setup, head + tail);
    if head == [] {
      assert head + tail == tail;
    } else {
      assert Solutions(head + tail)[1..] == Solutions(tail);
    }
  }

  lemma {:induction false} QueueSplits<S>(setup: Setup<S>, cs: seq<Candidate<S>>)
    ensures var plain := Solutions(cs);
            var c := Composed(setup, cs);
      && FirstAccepted(setup, Queue(setup, cs))
         == (if c.Some? && Accepted(setup, c.value) then c else FirstAccepted(setup, plain))
      && Rejections(setup, Queue(setup, cs))
         == (if c.None? then Rejections(setup, plain)
             else if Accepted(setup, c.value) then []
             else RejectionOf(setup, c.value) + Rejections(setup, plain))
  {
    var plain: seq<S> := Solutions(cs);
    var c := Composed(setup, cs);
    if c.Some? {
      assert ([c.value] + plain)[1..] == plain;
    } else {
      assert [] + plain == plain;
    }
  }

  // ---- what may leave -------------------------------------------------------------------------------

  predicate NoneAccepted<S>(setup: Setup<S>, queue: seq<S>) {
    forall j :: 0 <= j < |queue| ==> !Accepted(setup, queue[j])
  }

  lemma {:induction false} FirstAcceptedIs<S>(setup: Setup<S>, queue: seq<S>)
    ensures var r := FirstAccepted(setup, queue);
      && (r.None? <==> forall i :: 0 <= i < |queue| ==> !Accepted(setup, queue[i]))
      && (r.Some? ==>
            Accepted(setup, r.value)
            && exists i :: 0 <= i < |queue| && queue[i] == r.value && |Rejections(setup, queue)| == i && NoneAccepted(setup, queue[..i]))
      && (r.None? ==> |Rejections(setup, queue)| == |queue|)
    decreases |queue|
  {
    if queue != [] && !Accepted(setup, queue[0]) {
      FirstAcceptedIs(setup, queue[1..]);
      assert forall i :: 1 <= i < |queue| ==> queue[i] == queue[1..][i - 1];
      assert |RejectionOf(setup, queue[0])| == 1;
      var r := FirstAccepted(setup, queue[1..]);
      if r.Some? {
        var i :| 0 <= i < |queue[1..]| && queue[1..][i] == r.value
          && |Rejections(setup, queue[1..])| == i && NoneAccepted(setup, queue[1..][..i]);
        assert queue[i + 1] == r.value;
        assert queue[..i + 1] == [queue[0]] + queue[1..][..i];
      }
    }
  }

  lemma {:induction false} ComposableOf<S>(ran: seq<(string, StrategyResult<S>)>)
    ensures forall c :: c in Winners(ran) ==> (c.strategy, SolvedWith(c.solution)) in ran
    ensures forall c :: c in Composable(Winners(ran)) ==> c in Winners(ran) && c.strategy != "naive"
  {
    WinnersRan(ran);
    ComposableWinners(Winners(ran));
  }

  lemma {:induction false} WinnersRan<S>(ran: seq<(string, StrategyResult<S>)>)
    ensures forall c :: c in Winners(ran) ==> (c.strategy, SolvedWith(c.solution)) in ran
  {
    if ran != [] {
      WinnersRan(ran[..|ran| - 1]);
    }
  }

  lemma {:induction false} ComposableWinners<S>(winners: seq<Candidate<S>>)
    ensures forall c :: c in Composable(winners) ==> c in winners && c.strategy != "naive"
  {
    if winners != [] {
      ComposableWinners(winners[..|winners| - 1]);
    }
  }

  /** Gate chain, both ways. Whatever is submitted passed both gates (the EBBO check may have failed open,
      the feasibility gate never does) and is the composed solution or that of a strategy that ran and is
      not naive; and nothing is submitted exactly when every candidate was rejected, each leaving its
      record. */
  lemma {:induction false} SubmissionsAreGated<S>(setup: Setup<S>, results: seq<(string, StrategyResult<S>)>)
    ensures var ran := Ran(setup.runAll, results);
            var cs := Composable(Winners(ran));
            var queue := Queue(setup, cs);
            var final := FirstAccepted(setup, queue);
      && (final.Some? ==>
            && (setup.gate.Some? ==> setup.gate.value(final.value) == Feasible)
            && (setup.ebbo.Some? ==> setup.ebbo.value(final.value) != EbboRejects)
            && (Composed(setup, cs) == final
                || exists name :: name != "naive" && (name, SolvedWith(final.value)) in ran))
      && (final.None? <==> forall i :: 0 <= i < |queue| ==> !Accepted(setup, queue[i]))
      && (final.None? ==> |Rejections(setup, queue)| == |queue|)
  {
    var ran := Ran(setup.runAll, results);
    var cs := Composable(Winners(ran));
    var queue := Queue(setup, cs);
    var final := FirstAccepted(setup, queue);
    FirstAcceptedIs(setup, queue);
    ComposableOf(ran);
    if final.Some? && Composed(setup, cs) != final {
      var i :| 0 <= i < |queue| && queue[i] == final.value;
      QueueMember(setup, cs, i);
      var c :| c in cs && c.solution == final.value;
      assert c.strategy != "naive" && (c.strategy, SolvedWith(final.value)) in ran;
    }
  }

  lemma QueueMember<S>(setup: Setup<S>, cs: seq<Candidate<S>>, i: nat)
    requires i < |Queue(setup, cs)|
    ensures Composed(setup, cs) == Some(Queue(setup, cs)[i]) || exists c :: c in cs && c.solution == Queue(setup, cs)[i]
  {
    var k := if Composed(setup, cs).Some? then i - 1 else i;
    if k >= 0 {
      assert cs[k] in cs && cs[k].solution == Queue(setup, cs)[i];
    }
  }
}
