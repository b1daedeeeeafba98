/** The search loop of the ALNS solver (vrp_solver/solvers/alns_solver.py): roulette
    selection of the destroy and repair operators, the solution cost, the simulated-annealing
    acceptance rule, the adaptive operator weights and the `solve` loop itself. The random
    draws of one iteration and `math.exp` are parameters. */
module Alns {
  import opened Common
  import opened Stores
  import opened Routes
  import opened Solutions
  import opened BaseSolver
  import AlnsDestroy
  import AlnsRepair
  import ClarkeWright

  const TemperatureStart: real := 100.0
  const TemperatureEnd: real := 1.0
  const CoolingRate: real := 0.99
  const MaxNoImprovement: nat := 500
  const ScoreNewBest: int := 10
  const ScoreBetter: int := 5
  const ScoreAccepted: int := 1
  const ScoreRejected: int := 0

  /** The cost weights of `_calculate_cost` and its target utilization. */
  const Alpha: real := 1.0
  const Beta: real := 1000.0
  const Gamma: real := 500.0
  const TargetUtilization: real := 85.0

  const DestroyOperators: seq<string> := ["random", "worst", "shaw", "time_based"]
  const RepairOperators: seq<string> := ["greedy", "regret2", "regret3"]

  /** An operator-weight dictionary, in its insertion order. It is never empty. */
  type Weights = ws: seq<(string, real)> | |ws| > 0 witness [("", 1.0)]

  /** The annealing temperature never falls below `temperature_end`. */
  type Temperature = t: real | t >= 1.0 witness 1.0

  // ---------------------------------------------------------------------------
  // Roulette-wheel selection

  function Weight(e: (string, real)): real
  {
    e.1
  }

  /** The weights of the first `n` operators, summed. */
  function Cumulative(ws: seq<(string, real)>, n: nat): real
    requires n <= |ws|
  {
    SumOf(ws[..n], Weight)
  }

  /** The cumulative weight once operator `j` is counted. */
  function Through(ws: seq<(string, real)>, j: nat): real
    requires j < |ws|
  {
    Cumulative(ws, j + 1)
  }

  function Total(ws: seq<(string, real)>): real
  {
    Cumulative(ws, |ws|)
  }

  /** The first index from `i` on whose running sum, continued from `cum`, reaches `r`. */
  function Reach(ws: seq<(string, real)>, r: real, i: nat, cum: real): (k: Option<nat>)
    ensures k.Some? ==> i <= k.value < |ws|
    decreases |ws| - i
  {
    if i >= |ws| then None
    else if r <= cum + ws[i].1 then Some(i)
    else Reach(ws, r, i + 1, cum + ws[i].1)
  }

  /** `_select_operator` for the drawn `r`: the first operator whose cumulative weight
      reaches `r`, else the first operator. */
  function Roulette(ws: Weights, r: real): (op: string)
    ensures exists k :: 0 <= k < |ws| && ws[k].0 == op
  {
    match Reach(ws, r, 0, 0.0)
    case Some(k) => ws[k].0
    case None => ws[0].0
  }

  lemma CumulativeStep(ws: seq<(string, real)>, i: nat)
    requires i < |ws|
    ensures Cumulative(ws, i + 1) == Cumulative(ws, i) + ws[i].1
  {
    assert ws[..i + 1][..i] == ws[..i];
  }

  /** The scan from `i` finds the first later index whose cumulative weight reaches `r`. */
  lemma {:induction false} ReachIsFirst(ws: seq<(string, real)>, r: real, i: nat)
    requires i <= |ws|
    requires forall j :: 0 <= j < i ==> Through(ws, j) < r
    ensures var k := Reach(ws, r, i, Cumulative(ws, i));
            && (k.Some? ==> r <= Through(ws, k.value) && forall j :: 0 <= j < k.value ==> Through(ws, j) < r)
            && (k.None? ==> forall j :: 0 <= j < |ws| ==> Through(ws, j) < r)
    decreases |ws| - i
  {
    if i < |ws| {
      CumulativeStep(ws, i);
      if r > Cumulative(ws, i + 1) {
        ReachIsFirst(ws, r, i + 1);
      }
    }
  }

  /** With `r` at most the total weight the wheel always stops on an operator: the first
      one whose cumulative weight is at least `r`. */
  lemma RouletteIsFirstReaching(ws: Weights, r: real)
    requires r <= Total(ws)
    ensures exists k :: 0 <= k < |ws| && Roulette(ws, r) == ws[k].0
                        && r <= Through(ws, k)
                        && forall j :: 0 <= j < k ==> Through(ws, j) < r
  {
    assert ws[..0] == [];
    ReachIsFirst(ws, r, 0);
    assert Through(ws, |ws| - 1) == Total(ws);
    var k := Reach(ws, r, 0, 0.0);
    assert Roulette(ws, r) == ws[k.value].0;
  }

  /** `_select_operator`: `r` is the uniform draw scaled to the total weight. */
  method SelectOperator(ws: Weights, u: real) returns (op: string)
    ensures op == Roulette(ws, u * Total(ws))
  {
    var r := u * Total(ws);
    var cumulative := 0.0;
    var i := 0;
    while i < |ws|
      invariant 0 <= i <= |ws|
      invariant Reach(ws, r, i, cumulative) == Reach(ws, r, 0, 0.0)
    {
      cumulative := cumulative + ws[i].1;
      if r <= cumulative {
        return ws[i].0;
      }
      i := i + 1;
    }
    return ws[0].0;
  }

  /** `weights[op] += score`, entry by entry. */
  function Bump(ws: seq<(string, real)>, op: string, score: real): (ws': seq<(string, real)>)
    ensures |ws'| == |ws|
  {
    if ws == [] then []
    else
      var e := ws[|ws| - 1];
      Bump(ws[..|ws| - 1], op, score) + [if e.0 == op then (op, e.1 + score) else e]
  }

  /** Bumping keeps the operator names and their order, raises the entry of `op` by the
      score and leaves every other weight as it was. */
  lemma {:induction false} BumpChanges(ws: seq<(string, real)>, op: string, score: real)
    ensures forall i :: 0 <= i < |ws| ==> Bump(ws, op, score)[i].0 == ws[i].0
    ensures forall i :: 0 <= i < |ws| && ws[i].0 == op ==> Bump(ws, op, score)[i].1 == ws[i].1 + score
    ensures forall i :: 0 <= i < |ws| && ws[i].0 != op ==> Bump(ws, op, score)[i].1 == ws[i].1
  {
    if ws != [] {
      var init := ws[..|ws| - 1];
      BumpChanges(init, op, score);
      assert forall i :: 0 <= i < |init| ==> init[i] == ws[i];
    }
  }

  /** The weights carry exactly the given operator names, in order, and are all at least 1. */
  ghost predicate WeightsFor(ws: seq<(string, real)>, names: seq<string>)
  {
    && |ws| == |names|
    && forall i :: 0 <= i < |ws| ==> ws[i].0 == names[i] && ws[i].1 >= 1.0
  }

  /** A non-negative score keeps the weights of the operators at least 1. */
  lemma BumpKeepsWeights(ws: seq<(string, real)>, names: seq<string>, op: string, score: real)
    requires WeightsFor(ws, names) && score >= 0.0
    ensures WeightsFor(Bump(ws, op, score), names)
  {
    BumpChanges(ws, op, score);
  }

  /** The weight tables of `__init__`: every operator at 1.0. */
  function InitialWeights(names: seq<string>): (ws: seq<(string, real)>)
    ensures WeightsFor(ws, names)
  {
    seq(|names|, i requires 0 <= i < |names| => (names[i], 1.0))
  }

  // ---------------------------------------------------------------------------
  // Cost

  /** `|util - 85|` of one route. */
  function Deviation(r: Route): real
  {
    AlnsDestroy.Abs(LoadUtilization(r) - TargetUtilization)
  }

  /** `_calculate_cost`: distance, 1000 per vehicle, and 500 per point of utilization away
      from 85%, summed over the routes. */
  function Cost(s: Solution): real
  {
    s.totalDistanceKm * Alpha + (s.numVehiclesUsed as real) * Beta + SumOf(s.routes, Deviation) * Gamma
  }

  method CalculateSolutionCost(s: Solution) returns (c: real)
    ensures c == Cost(s)
  {
    var penalty := 0.0;
    var i := 0;
    while i < |s.routes|
      invariant 0 <= i <= |s.routes|
      invariant penalty == SumOf(s.routes[..i], Deviation)
    {
      assert s.routes[..i + 1][..i] == s.routes[..i];
      penalty := penalty + Deviation(s.routes[i]);
      i := i + 1;
    }
    assert s.routes[..i] == s.routes;
    c := s.totalDistanceKm * Alpha + (s.numVehiclesUsed as real) * Beta + penalty * Gamma;
  }

  /** The utilization penalty is never negative, so the cost is at least the distance plus
      1000 per vehicle; and when every route sits exactly at 85% it is exactly that. */
  lemma CostBounds(s: Solution)
    ensures Cost(s) >= s.totalDistanceKm + 1000.0 * (s.numVehiclesUsed as real)
    ensures (forall i :: 0 <= i < |s.routes| ==> LoadUtilization(s.routes[i]) == TargetUtilization)
            ==> Cost(s) == s.totalDistanceKm + 1000.0 * (s.numVehiclesUsed as real)
  {
    PenaltyFacts(s.routes);
  }

  lemma {:induction false} PenaltyFacts(routes: seq<Route>)
    ensures SumOf(routes, Deviation) >= 0.0
    ensures (forall i :: 0 <= i < |routes| ==> LoadUtilization(routes[i]) == TargetUtilization)
            ==> SumOf(routes, Deviation) == 0.0
  {
    if routes != [] {
      var init := routes[..|routes| - 1];
      assert forall i :: 0 <= i < |init| ==> init[i] == routes[i];
      PenaltyFacts(init);
    }
  }

  // ---------------------------------------------------------------------------
  // Acceptance

  datatype Outcome = NewBest | Better | Accepted | Rejected
  {
    /** The candidate becomes the current solution. */
    predicate Accepts()
    {
      !Rejected?
    }
  }

  /** The acceptance decision of one iteration; `u` is `random.random()` and `exp` is
      `math.exp`. */
  function Decide(newCost: real, currentCost: real, bestCost: real, temperature: Temperature, u: real, exp: real -> real): (o: Outcome)
    ensures o == NewBest <==> newCost < bestCost
    ensures o == Better <==> bestCost <= newCost < currentCost
  {
    if newCost < bestCost then NewBest
    else if newCost < currentCost then Better
    else if u < exp(-(newCost - currentCost) / temperature) then Accepted
    else Rejected
  }

  /** A candidate as costly as the current solution is always accepted, because exp(0) is
      1 and the uniform draw lies below 1; a costlier one that is not accepted is rejected
      only when the draw lies at or above its acceptance probability. */
  lemma EqualCostAccepted(newCost: real, currentCost: real, bestCost: real, temperature: Temperature, u: real, exp: real -> real)
    requires exp(0.0) == 1.0 && 0.0 <= u < 1.0
    requires newCost == currentCost
    ensures Decide(newCost, currentCost, bestCost, temperature, u, exp).Accepts()
  {
    assert -(newCost - currentCost) / temperature == 0.0;
  }

  /** The score each outcome earns its operators. */
  function Score(o: Outcome): (score: int)
    ensures score >= 0 && (score == 0 <==> o == Rejected)
    ensures o == NewBest ==> score == 10
  {
    match o
    case NewBest => ScoreNewBest
    case Better => ScoreBetter
    case Accepted => ScoreAccepted
    case Rejected => ScoreRejected
  }

  /** `max(temperature_end, temperature * cooling_rate)`. */
  function Cool(t: Temperature): (t': Temperature)
  {
    if TemperatureEnd < t * CoolingRate then t * CoolingRate else TemperatureEnd
  }

  /** Cooling never raises the temperature and never takes it below 1. */
  lemma CoolLowers(t: Temperature)
    ensures 1.0 <= Cool(t) <= t
    ensures t > 1.0 / CoolingRate ==> Cool(t) < t
  {
  }

  // ---------------------------------------------------------------------------
  // The search loop

  /** The random draws of one iteration: the two roulette draws as fractions of the total
      weight, the destroy operator's draws and the acceptance draw. */
  datatype RoundDraws = RoundDraws(destroyPick: real, repairPick: real, destroy: AlnsDestroy.Draw, accept: real)

  /** The variables the `solve` loop updates, with the solver's weight tables. */
  datatype SearchState = SearchState(
    iteration: nat,
    current: Solution,
    best: Solution,
    temperature: Temperature,
    stale: nat,
    destroyWeights: Weights,
    repairWeights: Weights)

  /** The solution `_apply_repair` builds from what `_apply_destroy` leaves of `current`. */
  function Candidate(ctx: SolverContext, day: string, start: real, current: Solution, dop: string, rop: string, draw: AlnsDestroy.Draw): Solution
  {
    var destroyed := AlnsDestroy.Destroyed(ctx, current.routes, dop, draw);
    AlnsRepair.Repaired(ctx, day, start, destroyed.0, destroyed.1, rop)
  }

  /** How a candidate is built from the current solution, the two operator names and the
      destroy draws. */
  type Rebuild = (Solution, string, string, AlnsDestroy.Draw) -> Solution

  function CandidateOf(ctx: SolverContext, day: string, start: real): Rebuild
  {
    (current: Solution, dop: string, rop: string, draw: AlnsDestroy.Draw) => Candidate(ctx, day, start, current, dop, rop, draw)
  }

  /** `rebuild` is destroy followed by repair, stated on each candidate it builds. */
  ghost predicate IsCandidateOf(ctx: SolverContext, day: string, start: real, rebuild: Rebuild)
  {
    forall current, dop, rop, draw {:trigger Candidate(ctx, day, start, current, dop, rop, draw)}
      :: rebuild(current, dop, rop, draw) == Candidate(ctx, day, start, current, dop, rop, draw)
  }

  /** The updates that follow the acceptance decision `o`: the current and best solutions,
      the cooled temperature, the no-improvement counter and the two weight tables. */
  function Settle(st: SearchState, dop: string, rop: string, candidate: Solution, o: Outcome): SearchState
  {
    var score := Score(o) as real;
    SearchState(
      st.iteration + 1,
      if o.Accepts() then candidate else st.current,
      if o == NewBest then candidate else st.best,
      Cool(st.temperature),
      if o == NewBest then 0 else st.stale + 1,
      if o.Accepts() then Bump(st.destroyWeights, dop, score) else st.destroyWeights,
      if o.Accepts() then Bump(st.repairWeights, rop, score) else st.repairWeights)
  }

  /** The acceptance decision and the updates that follow it, for a built candidate. */
  function Advance(st: SearchState, dop: string, rop: string, candidate: Solution, u: real, exp: real -> real): SearchState
  {
    Settle(st, dop, rop, candidate, Decide(Cost(candidate), Cost(st.current), Cost(st.best), st.temperature, u, exp))
  }

  /** The state after one pass of the loop body, for the candidate `rebuild` makes. */
  function Step(st: SearchState, d: RoundDraws, exp: real -> real, rebuild: Rebuild): SearchState
  {
    var dop := Roulette(st.destroyWeights, d.destroyPick * Total(st.destroyWeights));
    var rop := Roulette(st.repairWeights, d.repairPick * Total(st.repairWeights));
    Advance(st, dop, rop, rebuild(st.current, dop, rop, d.destroy), d.accept, exp)
  }

  /** The loop goes on while the no-improvement counter is at most 500. */
  function StepOf(draws: nat -> RoundDraws, exp: real -> real, rebuild: Rebuild): SearchState -> Option<SearchState>
  {
    (st: SearchState) => if st.stale > MaxNoImprovement then None else Some(Step(st, draws(st.iteration), exp, rebuild))
  }

  /** `step` is one guarded pass of the loop, stated on each state it is taken from. */
  ghost predicate IsSearchStep(step: SearchState -> Option<SearchState>, draws: nat -> RoundDraws, exp: real -> real, rebuild: Rebuild)
  {
    forall st {:trigger Step(st, draws(st.iteration), exp, rebuild)}
      :: step(st) == if st.stale > MaxNoImprovement then None else Some(Step(st, draws(st.iteration), exp, rebuild))
  }

  /** A pass taken from a state whose counter is at most 500 is `Advance` on the operators
      the two roulette draws select and the candidate built with them. */
  lemma StepIs(step: SearchState -> Option<SearchState>, draws: nat -> RoundDraws, exp: real -> real, rebuild: Rebuild,
               st: SearchState, dop: string, rop: string, candidate: Solution)
    requires IsSearchStep(step, draws, exp, rebuild) && st.stale <= MaxNoImprovement
    requires dop == Roulette(st.destroyWeights, draws(st.iteration).destroyPick * Total(st.destroyWeights))
    requires rop == Roulette(st.repairWeights, draws(st.iteration).repairPick * Total(st.repairWeights))
    requires candidate == rebuild(st.current, dop, rop, draws(st.iteration).destroy)
    ensures step(st) == Some(Advance(st, dop, rop, candidate, draws(st.iteration).accept, exp))
  {
    assert step(st) == Some(Step(st, draws(st.iteration), exp, rebuild));
    StepUnfold(st, draws(st.iteration), exp, rebuild, dop, rop);
  }

  lemma StepUnfold(st: SearchState, d: RoundDraws, exp: real -> real, rebuild: Rebuild, dop: string, rop: string)
    requires dop == Roulette(st.destroyWeights, d.destroyPick * Total(st.destroyWeights))
    requires rop == Roulette(st.repairWeights, d.repairPick * Total(st.repairWeights))
    ensures Step(st, d, exp, rebuild) == Advance(st, dop, rop, rebuild(st.current, dop, rop, d.destroy), d.accept, exp)
  {
  }

  /** The loop's state before the first iteration. */
  function Initial(initial: Solution, dw: Weights, rw: Weights): SearchState
  {
    SearchState(0, initial, initial, TemperatureStart, 0, dw, rw)
  }

  /** The state after at most `n` iterations. */
  function Searched(initial: Solution, dw: Weights, rw: Weights, n: nat, draws: nat -> RoundDraws, exp: real -> real, rebuild: Rebuild): SearchState
  {
    Iterate(StepOf(draws, exp, rebuild), Initial(initial, dw, rw), n)
  }

  /** What the loop keeps: the best solution costs no more than the current one nor than
      `bound`, the temperature is at most 100, and both weight tables name their operators
      in order with weights of at least 1. */
  ghost predicate Kept(st: SearchState, bound: real)
  {
    && Cost(st.best) <= Cost(st.current)
    && Cost(st.best) <= bound
    && st.temperature <= TemperatureStart
    && WeightsFor(st.destroyWeights, DestroyOperators)
    && WeightsFor(st.repairWeights, RepairOperators)
  }

  /** One iteration keeps `Kept`, counts itself, never raises the best cost or the
      temperature, and never lowers an operator's weight. */
  lemma AdvanceKeeps(st: SearchState, dop: string, rop: string, candidate: Solution, u: real, exp: real -> real, bound: real)
    requires Kept(st, bound)
    ensures var st' := Advance(st, dop, rop, candidate, u, exp);
            && Kept(st', bound)
            && Cost(st'.best) <= Cost(st.best)
            && st'.temperature <= st.temperature
            && (forall i :: 0 <= i < |st.destroyWeights| ==> st'.destroyWeights[i].1 >= st.destroyWeights[i].1)
            && (forall i :: 0 <= i < |st.repairWeights| ==> st'.repairWeights[i].1 >= st.repairWeights[i].1)
  {
    var o := Decide(Cost(candidate), Cost(st.current), Cost(st.best), st.temperature, u, exp);
    var score := Score(o) as real;
    CoolLowers(st.temperature);
    BumpKeepsWeights(st.destroyWeights, DestroyOperators, dop, score);
    BumpKeepsWeights(st.repairWeights, RepairOperators, rop, score);
    BumpChanges(st.destroyWeights, dop, score);
    BumpChanges(st.repairWeights, rop, score);
  }

  /** Over the whole loop the best cost never rises above the initial solution's, the
      temperature stays in [1, 100], every weight stays at least 1, and the counter
      records how many iterations ran; unless all `n` ran, the loop stopped because the
      no-improvement counter passed 500. */
  lemma SearchedKeeps(initial: Solution, dw: Weights, rw: Weights, n: nat, draws: nat -> RoundDraws, exp: real -> real, rebuild: Rebuild)
    requires WeightsFor(dw, DestroyOperators) && WeightsFor(rw, RepairOperators)
    ensures var last := Searched(initial, dw, rw, n, draws, exp, rebuild);
            var taken := Steps(StepOf(draws, exp, rebuild), Initial(initial, dw, rw), n);
            && Kept(last, Cost(initial))
            && 1.0 <= last.temperature <= TemperatureStart
            && last.iteration == taken
            && (taken < n ==> last.stale > MaxNoImprovement)
  {
    var step := StepOf(draws, exp, rebuild);
    var x := Initial(initial, dw, rw);
    var inv := (st: SearchState) => Kept(st, Cost(initial));
    forall a | step(a).Some?
      ensures inv(a) ==> inv(step(a).value)
      ensures step(a).value.iteration == a.iteration + 1
    {
      var d := draws(a.iteration);
      var dop := Roulette(a.destroyWeights, d.destroyPick * Total(a.destroyWeights));
      var rop := Roulette(a.repairWeights, d.repairPick * Total(a.repairWeights));
      assert step(a) == Some(Step(a, d, exp, rebuild));
      assert Step(a, d, exp, rebuild) == Advance(a, dop, rop, rebuild(a.current, dop, rop, d.destroy), d.accept, exp);
      if inv(a) {
        AdvanceKeeps(a, dop, rop, rebuild(a.current, dop, rop, d.destroy), d.accept, exp, Cost(initial));
      }
    }
    IterateKeeps(step, inv, x, n);
    IterateStops(step, x, n);
    IterationsCount(step, x, n);
  }

  lemma {:induction false} IterationsCount(step: SearchState -> Option<SearchState>, x: SearchState, n: nat)
    requires forall a :: step(a).Some? ==> step(a).value.iteration == a.iteration + 1
    ensures Iterate(step, x, n).iteration == x.iteration + Steps(step, x, n)
    decreases n
  {
    if n > 0 && step(x).Some? {
      IterationsCount(step, step(x).value, n - 1);
    }
  }

  /** Whatever the operators, the candidate serves every store the current solution served,
      except the stores the repair gave up. */
  lemma CandidateAccounts(ctx: SolverContext, day: string, start: real, current: Solution, dop: string, rop: string, draw: AlnsDestroy.Draw)
    ensures var destroyed := AlnsDestroy.Destroyed(ctx, current.routes, dop, draw);
            var givenUp := AlnsRepair.Inserted(ctx, day, destroyed.0, destroyed.1, rop).1;
            (multiset(ServedIds(Candidate(ctx, day, start, current, dop, rop, draw).routes)) + multiset(IdsOf(givenUp))
               == multiset(ServedIds(current.routes)))
  {
    var destroyed := AlnsDestroy.Destroyed(ctx, current.routes, dop, draw);
    AlnsDestroy.DestroyedKeepsStores(ctx, current.routes, dop, draw);
    AlnsRepair.RepairedAccounts(ctx, day, start, destroyed.0, destroyed.1, rop);
  }

  // ---------------------------------------------------------------------------
  // solve

  /** The stores `solve` plans for: allowed on the day and with a window that day. */
  function AlnsAvailable(stores: seq<Store>, day: string): seq<Store>
  {
    if stores == [] then []
    else
      var last := stores[|stores| - 1];
      AlnsAvailable(stores[..|stores| - 1], day)
        + (if last.IsDayAllowed(day) && last.GetTimeWindowForDay(Some(day)).Some? then [last] else [])
  }

  lemma {:induction false} AlnsAvailableMembers(stores: seq<Store>, day: string)
    ensures forall s :: s in AlnsAvailable(stores, day)
                    <==> s in stores && s.IsDayAllowed(day) && s.GetTimeWindowForDay(Some(day)).Some?
  {
    if stores != [] {
      AlnsAvailableMembers(stores[..|stores| - 1], day);
      assert stores == stores[..|stores| - 1] + [stores[|stores| - 1]];
    }
  }

  /** The solution `solve` returns, with the weight tables it leaves behind. */
  function Solved(ctx: SolverContext, day: string, start: Option<real>, n: nat, draws: nat -> RoundDraws, exp: real -> real,
                  dw: Weights, rw: Weights): (Solution, Weights, Weights)
  {
    var available := AlnsAvailable(ctx.stores, day);
    var t := ClarkeWright.StartOf(start);
    if available == [] then (NewSolution([], day, IdsOf(ctx.stores)), dw, rw)
    else
      var initial := ClarkeWright.Solved(ctx.(stores := available), day, Some(t));
      if initial.routes == [] then (initial, dw, rw)
      else
        var last := Searched(initial, dw, rw, n, draws, exp, CandidateOf(ctx, day, t));
        (last.best, last.destroyWeights, last.repairWeights)
  }

  /** With no store to plan, every store is reported unserved; otherwise the result costs
      no more than the Clarke-Wright solution the search starts from. Valid weight tables
      stay valid. */
  lemma SolvedNoWorse(ctx: SolverContext, day: string, start: Option<real>, n: nat, draws: nat -> RoundDraws, exp: real -> real,
                      dw: Weights, rw: Weights)
    requires WeightsFor(dw, DestroyOperators) && WeightsFor(rw, RepairOperators)
    ensures var (s, dw', rw') := Solved(ctx, day, start, n, draws, exp, dw, rw);
            var available := AlnsAvailable(ctx.stores, day);
            && (available == [] ==> s.routes == [] && s.unservedStores == IdsOf(ctx.stores))
            && (available != [] ==>
                  Cost(s) <= Cost(ClarkeWright.Solved(ctx.(stores := available), day, Some(ClarkeWright.StartOf(start)))))
            && WeightsFor(dw', DestroyOperators) && WeightsFor(rw', RepairOperators)
  {
    var available := AlnsAvailable(ctx.stores, day);
    if available != [] {
      var t := ClarkeWright.StartOf(start);
      var initial := ClarkeWright.Solved(ctx.(stores := available), day, Some(t));
      if initial.routes != [] {
        SearchedKeeps(initial, dw, rw, n, draws, exp, CandidateOf(ctx, day, t));
      }
    }
  }

  /** `ALNSSolver`: the solver's data and the operator weight tables, which persist from
      one `solve` call to the next. */
  class AlnsSolver {
    const ctx: SolverContext
    var destroyWeights: Weights
    var repairWeights: Weights

    ghost predicate Valid()
      reads this
    {
      WeightsFor(destroyWeights, DestroyOperators) && WeightsFor(repairWeights, RepairOperators)
    }

    /** `__init__`: every operator weight starts at 1.0. */
    constructor (ctx: SolverContext)
      ensures Valid() && this.ctx == ctx
      ensures destroyWeights == InitialWeights(DestroyOperators) && repairWeights == InitialWeights(RepairOperators)
    {
      this.ctx := ctx;
      destroyWeights := InitialWeights(DestroyOperators);
      repairWeights := InitialWeights(RepairOperators);
    }

    /** The candidate of one iteration: `_apply_destroy` on the current solution, then
        `_apply_repair`. */
    method Rebuilt(day: string, start: real, current: Solution, dop: string, rop: string, draw: AlnsDestroy.Draw, ghost rebuild: Rebuild)
      returns (candidate: Solution)
      requires IsCandidateOf(ctx, day, start, rebuild)
      ensures candidate == rebuild(current, dop, rop, draw)
    {
      var routes, removed := AlnsDestroy.ApplyDestroy(ctx, current, dop, day, draw);
      candidate := AlnsRepair.ApplyRepair(ctx, routes, removed, rop, day, start);
      assert candidate == Candidate(ctx, day, start, current, dop, rop, draw);
    }

    /** The updates after the acceptance decision, with the weight tables updated in
        place. */
    method Apply(st: SearchState, dop: string, rop: string, candidate: Solution, o: Outcome)
      returns (current: Solution, best: Solution, temperature: Temperature, stale: nat)
      requires st.destroyWeights == destroyWeights && st.repairWeights == repairWeights
      modifies this
      ensures SearchState(st.iteration + 1, current, best, temperature, stale, destroyWeights, repairWeights)
           == Settle(st, dop, rop, candidate, o)
    {
      current, best, stale := st.current, st.best, st.stale + 1;
      if o == NewBest {
        best, current, stale := candidate, candidate, 0;
      } else if o.Accepts() {
        current := candidate;
      }
      if o.Accepts() {
        var score := Score(o) as real;
        destroyWeights := Bump(destroyWeights, dop, score);
        repairWeights := Bump(repairWeights, rop, score);
      }
      temperature := Cool(st.temperature);
    }

    /** The acceptance step of the loop body: the three costs, the decision and the
        updates. */
    method Accept(st: SearchState, dop: string, rop: string, candidate: Solution, u: real, exp: real -> real)
      returns (current: Solution, best: Solution, temperature: Temperature, stale: nat)
      requires st.destroyWeights == destroyWeights && st.repairWeights == repairWeights
      modifies this
      ensures SearchState(st.iteration + 1, current, best, temperature, stale, destroyWeights, repairWeights)
           == Advance(st, dop, rop, candidate, u, exp)
    {
      var currentCost := CalculateSolutionCost(st.current);
      var newCost := CalculateSolutionCost(candidate);
      var bestCost := CalculateSolutionCost(st.best);
      var o := Decide(newCost, currentCost, bestCost, st.temperature, u, exp);
      current, best, temperature, stale := Apply(st, dop, rop, candidate, o);
    }

    /** The first half of the loop body: the two roulette draws and the candidate built
        with the operators they select. */
    method Propose(day: string, start: real, st: SearchState, draws: nat -> RoundDraws, ghost rebuild: Rebuild)
      returns (dop: string, rop: string, candidate: Solution)
      requires IsCandidateOf(ctx, day, start, rebuild)
      ensures dop == Roulette(st.destroyWeights, draws(st.iteration).destroyPick * Total(st.destroyWeights))
      ensures rop == Roulette(st.repairWeights, draws(st.iteration).repairPick * Total(st.repairWeights))
      ensures candidate == rebuild(st.current, dop, rop, draws(st.iteration).destroy)
    {
      var d := draws(st.iteration);
      dop := SelectOperator(st.destroyWeights, d.destroyPick);
      rop := SelectOperator(st.repairWeights, d.repairPick);
      candidate := Rebuilt(day, start, st.current, dop, rop, d.destroy, rebuild);
    }

    /** The second half of the loop body, stated as one guarded pass of the loop. */
    method Iteration(st: SearchState, draws: nat -> RoundDraws, exp: real -> real, dop: string, rop: string, candidate: Solution,
                     ghost rebuild: Rebuild, ghost step: SearchState -> Option<SearchState>)
      returns (current: Solution, best: Solution, temperature: Temperature, stale: nat)
      requires IsSearchStep(step, draws, exp, rebuild) && st.stale <= MaxNoImprovement
      requires st.destroyWeights == destroyWeights && st.repairWeights == repairWeights
      requires dop == Roulette(st.destroyWeights, draws(st.iteration).destroyPick * Total(st.destroyWeights))
      requires rop == Roulette(st.repairWeights, draws(st.iteration).repairPick * Total(st.repairWeights))
      requires candidate == rebuild(st.current, dop, rop, draws(st.iteration).destroy)
      modifies this
      ensures step(st) == Some(SearchState(st.iteration + 1, current, best, temperature, stale, destroyWeights, repairWeights))
    {
      current, best, temperature, stale := Accept(st, dop, rop, candidate, draws(st.iteration).accept, exp);
      StepIs(step, draws, exp, rebuild, st, dop, rop, candidate);
    }

    /** One pass of the loop body of `solve`. */
    method Round(day: string, start: real, st: SearchState, draws: nat -> RoundDraws, exp: real -> real,
                 ghost rebuild: Rebuild, ghost step: SearchState -> Option<SearchState>)
      returns (current: Solution, best: Solution, temperature: Temperature, stale: nat)
      requires IsCandidateOf(ctx, day, start, rebuild) && IsSearchStep(step, draws, exp, rebuild)
      requires st.stale <= MaxNoImprovement
      requires st.destroyWeights == destroyWeights && st.repairWeights == repairWeights
      modifies this
      ensures step(st) == Some(SearchState(st.iteration + 1, current, best, temperature, stale, destroyWeights, repairWeights))
    {
      var dop, rop, candidate := Propose(day, start, st, draws, rebuild);
      current, best, temperature, stale := Iteration(st, draws, exp, dop, rop, candidate, rebuild, step);
    }

    /** The `for iteration in range(max_iterations)` loop of `solve`. */
    method Search(day: string, start: real, initial: Solution, n: nat, draws: nat -> RoundDraws, exp: real -> real,
                  ghost rebuild: Rebuild, ghost step: SearchState -> Option<SearchState>)
      returns (best: Solution)
      requires IsCandidateOf(ctx, day, start, rebuild) && IsSearchStep(step, draws, exp, rebuild)
      modifies this
      ensures var last := Iterate(step, Initial(initial, old(destroyWeights), old(repairWeights)), n);
              best == last.best && destroyWeights == last.destroyWeights && repairWeights == last.repairWeights
    {
      ghost var goal := Iterate(step, Initial(initial, destroyWeights, repairWeights), n);
      var current, temperature, stale: nat := initial, TemperatureStart as Temperature, 0;
      best := initial;
      var i := 0;
      while i < n
        invariant 0 <= i <= n
        invariant stale <= MaxNoImprovement
        invariant Iterate(step, SearchState(i, current, best, temperature, stale, destroyWeights, repairWeights), n - i) == goal
      {
        var st := SearchState(i, current, best, temperature, stale, destroyWeights, repairWeights);
        IterateUnfold(step, st, n - i);
        current, best, temperature, stale := Round(day, start, st, draws, exp, rebuild, step);
        i := i + 1;
        if stale > MaxNoImprovement {
          ghost var st' := SearchState(i, current, best, temperature, stale, destroyWeights, repairWeights);
          assert step(st') == None by {
            assert Step(st', draws(st'.iteration), exp, rebuild) == Step(st', draws(st'.iteration), exp, rebuild);
          }
          if n - i > 0 {
            IterateUnfold(step, st', n - i);
          }
          return;
        }
      }
    }

    /** `solve`: plans the stores that allow the day and have a window that day, starts
        from the Clarke-Wright solution and improves it by the search. */
    method Solve(day: string, start: Option<real>, n: nat, draws: nat -> RoundDraws, exp: real -> real)
      returns (s: Solution)
      requires Valid()
      modifies this
      ensures Valid()
      ensures (s, destroyWeights, repairWeights) == Solved(ctx, day, start, n, draws, exp, old(destroyWeights), old(repairWeights))
    {
      var t := ClarkeWright.StartOf(start);
      var available := AlnsAvailable(ctx.stores, day);
      if available == [] {
        return NewSolution([], day, IdsOf(ctx.stores));
      }
      var initial := ClarkeWright.Solve(ctx.(stores := available), day, Some(t));
      if initial.routes == [] {
        return initial;
      }
      assert IsCandidateOf(ctx, day, t, CandidateOf(ctx, day, t));
      assert IsSearchStep(StepOf(draws, exp, CandidateOf(ctx, day, t)), draws, exp, CandidateOf(ctx, day, t));
      s := Search(day, t, initial, n, draws, exp, CandidateOf(ctx, day, t), StepOf(draws, exp, CandidateOf(ctx, day, t)));
      SearchedKeeps(initial, old(destroyWeights), old(repairWeights), n, draws, exp, CandidateOf(ctx, day, t));
    }
  }
}
