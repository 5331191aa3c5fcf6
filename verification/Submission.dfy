/** The router inside the orchestrator: what the modules guarantee together. */
module Submission {
  import opened Wrappers
  import opened Models
  import opened Multicall
  import opened Candidates
  import opened Router
  import opened OrderValidity
  import opened RouterPipeline
  import opened Orchestrator
  import opened Ebbo
  import opened RouterPassesEbbo
  import Encoder
  import RouterQuotes
  import V3Batched

  /** The EBBO validator as the orchestrator calls it. */
  function EbboOf(auction: seq<Order>, chain: V3Batched.Chain, mids: seq<Token>, toleranceBps: nat, s: Outcome): EbboVerdict {
    if s.Solved? && !EbboCheck(s.trades, s.prices, auction, chain, mids, toleranceBps).passes then EbboRejects else EbboPasses
  }

  /** The router's outcome as a strategy result; a raising encoder is a strategy error. */
  function AsResult(r: Outcome): StrategyResult<Outcome> {
    match r
    case Solved(_, _, _) => SolvedWith(r)
    case NoSolution => NoResult
    case StrategyError => Errored
  }

  /** A router batch and the EBBO stage, after filter and gate. */
  lemma RouterVerdict(cfg: RouterConfig, venues: Venues, before: Node<ReadCall>, after: Node<ReadCall>, filterOn: bool, maxOrders: nat,
                      ranked: seq<Order>, auction: seq<Order>, toleranceBps: nat)
    requires Encoder.ValidConfig(cfg.encoder)
    requires UniqueUids(auction) && UniqueUids(ranked) && AllSigned(ranked) && forall o :: o in ranked ==> o in auction
    requires var orders := Selected(before, filterOn, maxOrders, ranked);
             Answered(venues.chain, V3Paths(orders, cfg.mids)) && RouterQuotes.ZeroForZero(AllQuotes(cfg, venues, orders))
    ensures var r := RouterOutcome(cfg, venues, before, after, filterOn, maxOrders, ranked, auction);
            r.Solved? ==> (EbboOf(auction, venues.chain, cfg.mids, toleranceBps, r) == EbboPasses <==> |r.trades| <= MAX_TRADES_PER_CHECK)
  {
    SelectedOf(before, filterOn, maxOrders, ranked);
    RouterPassesEbboExactly(cfg, venues, auction, Selected(before, filterOn, maxOrders, ranked), toleranceBps);
  }

  /** The router's batch passes the gates: it holds at most 20 trades, which is all the EBBO stage asks of it, and
      the feasibility gate lets it through. Either gate may be off. */
  predicate RouterAccepted(setup: Setup<Outcome>, r: Outcome) {
    r.Solved? && (setup.ebbo.Some? ==> |r.trades| <= MAX_TRADES_PER_CHECK) && PassesGate(setup, r)
  }

  /** With the router first in the chain, as the orchestrator has it, and whether or not the strategies after a
      winner still run and their solutions are composed: whatever `RouterSolver.solve` makes of the auction, filter and
      funding gate included, is a candidate ahead of all others. What is submitted is the composed solution if both
      gates accept it; else the router's batch, exactly when it holds at most 20 trades and the feasibility gate lets
      it through; else the first accepted of the later strategies, if they ran. */
  lemma {:induction false} RouterSolutionIsSubmitted(cfg: RouterConfig, venues: Venues, before: Node<ReadCall>, after: Node<ReadCall>, filterOn: bool,
                                  maxOrders: nat, ranked: seq<Order>, auction: seq<Order>, toleranceBps: nat,
                                  setup: Setup<Outcome>, rest: seq<(string, StrategyResult<Outcome>)>)
    requires Encoder.ValidConfig(cfg.encoder)
    requires UniqueUids(auction) && UniqueUids(ranked) && AllSigned(ranked) && forall o :: o in ranked ==> o in auction
    requires var orders := Selected(before, filterOn, maxOrders, ranked);
             Answered(venues.chain, V3Paths(orders, cfg.mids)) && RouterQuotes.ZeroForZero(AllQuotes(cfg, venues, orders))
    requires setup.ebbo.Some? ==> forall s :: setup.ebbo.value(s) == EbboOf(auction, venues.chain, cfg.mids, toleranceBps, s)
    ensures var r := RouterOutcome(cfg, venues, before, after, filterOn, maxOrders, ranked, auction);
            var candidates := Composable(Winners(Ran(setup.runAll, [("router-v2", AsResult(r))] + rest)));
            var later := Composable(Winners(if r.Solved? && !setup.runAll then [] else Ran(setup.runAll, rest)));
            var composed := Composed(setup, candidates);
      && candidates == (if r.Solved? then [Candidate("router-v2", r)] else []) + later
      && FirstAccepted(setup, Queue(setup, candidates))
         == if composed.Some? && Accepted(setup, composed.value) then composed
            else if RouterAccepted(setup, r) then Some(r)
            else FirstAccepted(setup, Solutions(later))
  {
    var r := RouterOutcome(cfg, venues, before, after, filterOn, maxOrders, ranked, auction);
    var first := ("router-v2", AsResult(r));
    var later := Composable(Winners(if r.Solved? && !setup.runAll then [] else Ran(setup.runAll, rest)));
    CandidatesHead(setup.runAll, first, rest);
    SubmittedByStages(setup, WinnerOf(first), later);
    if r.Solved? {
      RouterVerdict(cfg, venues, before, after, filterOn, maxOrders, ranked, auction, toleranceBps);
    }
  }

  /** The log opens with how the router ended: solved, without a solution, or raising. */
  lemma {:induction false} RouterIsLogged(setup: Setup<Outcome>, r: Outcome, rest: seq<(string, StrategyResult<Outcome>)>)
    ensures var log := Trace(setup, [("router-v2", AsResult(r))] + rest);
      && log != [] && log[0].strategy == "router-v2"
      && log[0].status == (if r.Solved? then SolvedStatus else if r.NoSolution? then NoSolutionStatus else ErrorStatus)
      && log[0].solution == if r.Solved? then Some(r) else None
  {
    RanHead(setup.runAll, ("router-v2", AsResult(r)), rest);
  }
}
