/** One solve of the orchestrator, told from the strategies' results alone: which of them ran, what is tried in which order,
    what is submitted and what is logged. */
module OrchestratorExact {
  import opened Wrappers
  import opened Orchestrator

  /** The strategies run to the end of the list, or to the first solution when only one is wanted. */
  ghost predicate RunsTo<S>(runAll: bool, results: seq<(string, StrategyResult<S>)>, m: nat) {
    && m <= |results|
    && (!runAll ==> forall i :: 0 <= i < m - 1 ==> !results[i].1.SolvedWith?)
    && (m < |results| ==> !runAll && m > 0 && results[m - 1].1.SolvedWith?)
  }

  lemma {:induction false} RanExact<S>(runAll: bool, results: seq<(string, StrategyResult<S>)>) returns (m: nat)
    ensures RunsTo(runAll, results, m) && Ran(runAll, results) == results[..m]
    decreases |results|
  {
    if results == [] {
      return 0;
    }
    if results[0].1.SolvedWith? && !runAll {
      return 1;
    }
    var rest := results[1..];
    m := RanExact(runAll, rest);
    assert forall i :: 0 <= i < |rest| ==> rest[i] == results[i + 1];
    assert [results[0]] + rest[..m] == results[..m + 1];
    m := m + 1;
  }

  /** The log entry of a strategy. */
  ghost predicate Recorded<S>(name: string, r: StrategyResult<S>, a: AttemptRecord<S>) {
    && a.strategy == name
    && (r.TimedOut? ==> a.status == TimeoutStatus) && (r.Errored? ==> a.status == ErrorStatus)
    && (r.NoResult? ==> a.status == NoSolutionStatus) && (r.SolvedWith? ==> a.status == SolvedStatus)
    && a.solution == if r.SolvedWith? then Some(r.solution) else None
  }

  /** The candidates are the solutions of the strategies that ran, the naive one's left out, in order. */
  ghost predicate CandidatesAt<S>(ran: seq<(string, StrategyResult<S>)>, cs: seq<Candidate<S>>, at: seq<nat>) {
    && |at| == |cs|
    && (forall k :: 0 <= k < |at| ==> at[k] < |ran| && ran[at[k]] == (cs[k].strategy, SolvedWith(cs[k].solution)))
    && (forall k, l :: 0 <= k < l < |at| ==> at[k] < at[l])
    && forall i :: 0 <= i < |ran| ==> (i in at <==> ran[i].1.SolvedWith? && ran[i].0 != "naive")
  }

  lemma CandidatesNext<S>(ran: seq<(string, StrategyResult<S>)>, cs: seq<Candidate<S>>, at: seq<nat>)
    returns (cs': seq<Candidate<S>>, at': seq<nat>)
    requires ran != [] && CandidatesAt(ran[..|ran| - 1], cs, at)
    ensures CandidatesAt(ran, cs', at')
    ensures var last := ran[|ran| - 1];
            cs' == if last.1.SolvedWith? && last.0 != "naive" then cs + [Candidate(last.0, last.1.solution)] else cs
  {
    var n := |ran| - 1;
    assert forall k :: 0 <= k < |at| ==> ran[at[k]] == ran[..n][at[k]];
    if ran[n].1.SolvedWith? && ran[n].0 != "naive" {
      cs', at' := cs + [Candidate(ran[n].0, ran[n].1.solution)], at + [n];
    } else {
      cs', at' := cs, at;
    }
    forall i | 0 <= i < n ensures i in at' <==> ran[i].1.SolvedWith? && ran[i].0 != "naive" {
      assert ran[i] == ran[..n][i];
    }
  }

  lemma {:induction false} ComposableNext<S>(winners: seq<Candidate<S>>, c: Candidate<S>)
    ensures Composable(winners + [c]) == Composable(winners) + if c.strategy != "naive" then [c] else []
  {
    assert (winners + [c])[..|winners|] == winners;
  }

  lemma {:induction false} CandidatesExact<S>(ran: seq<(string, StrategyResult<S>)>) returns (at: seq<nat>)
    ensures CandidatesAt(ran, Composable(Winners(ran)), at)
  {
    if ran == [] {
      return [];
    }
    var n := |ran| - 1;
    var before := Winners(ran[..n]);
    var cs;
    at := CandidatesExact(ran[..n]);
    cs, at := CandidatesNext(ran, Composable(before), at);
    if ran[n].1.SolvedWith? {
      ComposableNext(before, Candidate(ran[n].0, ran[n].1.solution));
    } else {
      assert before + [] == before;
    }
  }

  /** The composer sees every candidate with its surplus, if there are two or more of them. */
  ghost predicate ComposerGives<S>(setup: Setup<S>, cs: seq<Candidate<S>>, composed: Option<S>) {
    if setup.composeOn && |cs| > 1 && setup.compose.Some? then
      && composed == setup.compose.value(WithSurplus(setup, cs))
      && forall k :: 0 <= k < |cs| ==> WithSurplus(setup, cs)[k] == (cs[k], setup.surplus(cs[k].solution))
    else composed == None
  }

  /** The composed solution, if there is one, goes before the candidates' own. */
  ghost predicate Lines<S>(cs: seq<Candidate<S>>, composed: Option<S>, queue: seq<S>) {
    var n := if composed.Some? then 1 else 0;
    && |queue| == n + |cs| && (composed.Some? ==> queue[0] == composed.value)
    && forall k :: 0 <= k < |cs| ==> queue[n + k] == cs[k].solution
  }

  /** Neither gate holds the solution back. */
  ghost predicate Fine<S>(setup: Setup<S>, s: S) {
    (setup.ebbo.Some? ==> setup.ebbo.value(s) != EbboRejects) && (setup.gate.Some? ==> setup.gate.value(s) == Feasible)
  }

  ghost predicate RejectedAs<S>(setup: Setup<S>, s: S, a: AttemptRecord<S>) {
    && a.status == RejectedStatus && a.solution == Some(s)
    && a.strategy == if setup.ebbo.Some? && setup.ebbo.value(s) == EbboRejects then "ebbo-rejected" else "feasibility-rejected"
  }

  /** The queue is tried up to the first solution that is fine, and each one before it leaves its rejection. */
  ghost predicate Tried<S>(setup: Setup<S>, queue: seq<S>, final: Option<S>, log: seq<AttemptRecord<S>>) {
    && |log| <= |queue|
    && (forall i :: 0 <= i < |log| ==> !Fine(setup, queue[i]) && RejectedAs(setup, queue[i], log[i]))
    && if |log| < |queue| then final == Some(queue[|log|]) && Fine(setup, queue[|log|]) else final == None
  }

  lemma {:induction false} TriedExact<S>(setup: Setup<S>, queue: seq<S>)
    ensures Tried(setup, queue, FirstAccepted(setup, queue), Rejections(setup, queue))
    decreases |queue|
  {
    if queue != [] && !Accepted(setup, queue[0]) {
      var rest := queue[1..];
      TriedExact(setup, rest);
      assert Rejections(setup, queue) == [RejectionOf(setup, queue[0])[0]] + Rejections(setup, rest);
      assert forall i :: 0 <= i < |rest| ==> rest[i] == queue[i + 1];
    }
  }

  /** The whole solve: `log` is what it appends. */
  ghost predicate Solves<S>(setup: Setup<S>, results: seq<(string, StrategyResult<S>)>, final: Option<S>, log: seq<AttemptRecord<S>>,
                            m: nat, cs: seq<Candidate<S>>, at: seq<nat>, composed: Option<S>, queue: seq<S>) {
    && RunsTo(setup.runAll, results, m) && CandidatesAt(results[..m], cs, at)
    && ComposerGives(setup, cs, composed) && Lines(cs, composed, queue)
    && LogsRun(results[..m], composed, log)
    && Tried(setup, queue, final, log[m + (if composed.Some? then 1 else 0)..])
  }

  /** The log starts with an entry for every strategy that ran, and then one for the composed solution. */
  ghost predicate LogsRun<S>(ran: seq<(string, StrategyResult<S>)>, composed: Option<S>, log: seq<AttemptRecord<S>>) {
    && |ran| + (if composed.Some? then 1 else 0) <= |log|
    && (forall i :: 0 <= i < |ran| ==> Recorded(ran[i].0, ran[i].1, log[i]))
    && (composed.Some? ==> log[|ran|] == AttemptRecord("composer", SolvedStatus, composed))
  }

  lemma LogExact<S>(ran: seq<(string, StrategyResult<S>)>, composed: Option<S>, rejections: seq<AttemptRecord<S>>)
    ensures var log := Records(ran) + (ComposerRecord(composed) + rejections);
            LogsRun(ran, composed, log) && log[|ran| + (if composed.Some? then 1 else 0)..] == rejections
  {
    var log := Records(ran) + (ComposerRecord(composed) + rejections);
    assert forall i :: 0 <= i < |ran| ==> log[i] == RecordOf(ran[i].0, ran[i].1);
  }

  lemma {:induction false} ComposedExact<S>(setup: Setup<S>, cs: seq<Candidate<S>>)
    ensures ComposerGives(setup, cs, Composed(setup, cs)) && Lines(cs, Composed(setup, cs), Queue(setup, cs))
  {
  }

  /** What `SolverOrchestrator.solve` submits and appends to its log. */
  lemma {:induction false} SolveExact<S>(setup: Setup<S>, results: seq<(string, StrategyResult<S>)>)
    returns (m: nat, cs: seq<Candidate<S>>, at: seq<nat>, composed: Option<S>, queue: seq<S>)
    ensures Solves(setup, results, FirstAccepted(setup, Queue(setup, Composable(Winners(Ran(setup.runAll, results))))),
                   Trace(setup, results), m, cs, at, composed, queue)
  {
    m := RanExact(setup.runAll, results);
    var ran := results[..m];
    cs := Composable(Winners(ran));
    composed, queue := Composed(setup, cs), Queue(setup, cs);
    at := CandidatesExact(ran);
    ComposedExact(setup, cs);
    TriedExact(setup, queue);
    LogExact(ran, composed, Rejections(setup, queue));
  }
}
