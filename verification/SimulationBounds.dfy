/** Every run ends, within a bound that stays below the engine's recursion
    limit; and the loop that drives the nodes. */
module SimulationBounds {
  import opened Domain
  import opened Sampling
  import opened SimulationGraph
  import opened SimulationLog
  import opened SimulationWalk

  function AtLeastOne(n: nat): nat {
    if n == 0 then 1 else n
  }

  // Node visits one step can take: perceive, look (once, or until the scans run
  // out), act, update, check.
  function Cycle(cfg: Config): nat {
    if AtLeastOne(cfg.maxScans) <= 2 then 7 else 5 + AtLeastOne(cfg.maxScans)
  }

  function StepsLeft(cfg: Config, s: State): nat {
    if s.step < AtLeastOne(cfg.maxSteps) then AtLeastOne(cfg.maxSteps) - s.step else 0
  }

  function Later(cfg: Config, steps: int): int {
    steps * Cycle(cfg)
  }

  function ScansLeft(cfg: Config, s: State): nat {
    if s.scanCount < cfg.maxScans then cfg.maxScans - s.scanCount else 1
  }

  // Node visits left, at most.
  function Rank(cfg: Config, m: Machine): int {
    var left := StepsLeft(cfg, m.state);
    match m.node
    case Orient => 1 + Later(cfg, left)
    case Perceive => Later(cfg, left)
    case Attend =>
      Later(cfg, left - 1) + (if IntendedOn(cfg, m.state.current).None? then 6 else 4 + ScansLeft(cfg, m.state))
    case ActOnIntended => Later(cfg, left - 1) + 4
    case ScanExhausted => 1
    case Interpret => Later(cfg, left - 1) + 5
    case SelectAction => Later(cfg, left - 1) + 4
    case ExecuteAction => Later(cfg, left - 1) + 3
    case UpdateState => Later(cfg, left) + 2
    case CheckTask => Later(cfg, left) + 1
    case End => 0
    case Raised => 0
  }

  ghost predicate BoundInv(cfg: Config, m: Machine) {
    m.node in {UpdateState, CheckTask, ScanExhausted, End, Raised} || m.state.step < AtLeastOne(cfg.maxSteps)
  }

  lemma CycleCovers(cfg: Config, s: State)
    ensures Cycle(cfg) >= 7 && Cycle(cfg) >= 5 + ScansLeft(cfg, s)
  {}

  lemma LaterLaws(cfg: Config, steps: nat)
    ensures Later(cfg, steps) >= 0
    ensures steps > 0 ==> Later(cfg, steps) == Later(cfg, steps - 1) + Cycle(cfg) && Later(cfg, steps - 1) >= 0
  {}

  lemma AttendFalls(cfg: Config, m: Machine, d: Draw)
    requires BoundInv(cfg, m) && NodeInv(cfg, m) && m.node == Attend
    ensures BoundInv(cfg, Step(cfg, m, d)) && 0 <= Rank(cfg, Step(cfg, m, d)) < Rank(cfg, m)
  {
    LaterLaws(cfg, StepsLeft(cfg, m.state));
    hide Later, IntendedElement, Pick;
  }

  lemma ExecuteFalls(cfg: Config, m: Machine, d: Draw)
    requires BoundInv(cfg, m) && NodeInv(cfg, m) && m.node == ExecuteAction
    ensures BoundInv(cfg, Step(cfg, m, d)) && 0 <= Rank(cfg, Step(cfg, m, d)) < Rank(cfg, m)
  {
    hide Later, Step, ExecuteNode;
    ExecuteStep(cfg, m, d);
    MovePath(cfg.graph, m.state, m.state.action.value);
    LaterLaws(cfg, StepsLeft(cfg, m.state));
    LaterLaws(cfg, StepsLeft(cfg, m.state) - 1);
  }

  // Where the other nodes lead when the run goes on.
  function NextNode(n: Node): Node {
    match n
    case Orient => Perceive
    case Perceive => Attend
    case ActOnIntended => ExecuteAction
    case ScanExhausted => End
    case Interpret => SelectAction
    case SelectAction => ExecuteAction
    case UpdateState => CheckTask
    case CheckTask => Perceive
    case _ => n
  }

  // A node that neither moves nor looks: `t` follows `m` or the run halts.
  predicate Routed(cfg: Config, m: Machine, t: Machine) {
    && t.state.step == m.state.step && t.state.current == m.state.current && t.state.scanCount == m.state.scanCount
    && (t.Halted() || t.node == NextNode(m.node))
    && (m.node == CheckTask && t.node == Perceive ==> m.state.step < cfg.maxSteps)
  }

  lemma RouteOf(cfg: Config, m: Machine, d: Draw)
    requires m.node !in {Attend, ExecuteAction}
    ensures Routed(cfg, m, Step(cfg, m, d))
  {
    hide Pick, ProgressOf, UncertaintyAfter, AbandonPressure, SelectActionNode, Stuck;
  }

  lemma RoutedFalls(cfg: Config, m: Machine, t: Machine)
    requires BoundInv(cfg, m) && !m.Halted() && m.node !in {Attend, ExecuteAction} && Routed(cfg, m, t)
    ensures BoundInv(cfg, t) && 0 <= Rank(cfg, t) < Rank(cfg, m)
  {
    hide Later, IntendedOn, Cycle, ScansLeft;
    CycleCovers(cfg, m.state);
    CycleCovers(cfg, t.state);
    LaterLaws(cfg, StepsLeft(cfg, m.state));
  }

  lemma RankFalls(cfg: Config, m: Machine, d: Draw)
    requires BoundInv(cfg, m) && NodeInv(cfg, m) && !m.Halted()
    ensures BoundInv(cfg, Step(cfg, m, d))
    ensures 0 <= Rank(cfg, Step(cfg, m, d)) < Rank(cfg, m)
  {
    hide Step, NodeInv, BoundInv, Rank, Routed;
    if m.node == Attend {
      AttendFalls(cfg, m, d);
    } else if m.node == ExecuteAction {
      ExecuteFalls(cfg, m, d);
    } else {
      RouteOf(cfg, m, d);
      RoutedFalls(cfg, m, Step(cfg, m, d));
    }
  }

  // A run that has not halted after k visits has used up k of its rank.
  lemma {:induction false} RankAfter(cfg: Config, start: ScreenId, draws: nat -> Draw, k: nat)
    ensures BoundInv(cfg, Run(cfg, start, draws, k))
    ensures Run(cfg, start, draws, k).Halted() || Rank(cfg, Run(cfg, start, draws, k)) + k <= Rank(cfg, Initial(start))
  {
    hide Step, Rank;
    if k > 0 {
      var m := Run(cfg, start, draws, k - 1);
      RankAfter(cfg, start, draws, k - 1);
      NodeAlways(cfg, start, draws, k - 1);
      if m.Halted() { HaltedStays(cfg, m, draws(k - 1)); } else { RankFalls(cfg, m, draws(k - 1)); }
    }
  }

  lemma HaltedStays(cfg: Config, m: Machine, d: Draw)
    requires m.Halted()
    ensures Step(cfg, m, d) == m
  {}

  // The most node visits a run can take.
  function VisitBound(cfg: Config): nat {
    1 + AtLeastOne(cfg.maxSteps) * Cycle(cfg)
  }

  function RecursionLimit(cfg: Config): nat {
    cfg.maxSteps * (8 + cfg.maxScans) + 20
  }

  // For any scores and draws a run halts within the bound, and on a closed
  // graph it halts with an outcome.
  lemma EveryRunEnds(cfg: Config, start: ScreenId, draws: nat -> Draw)
    ensures Run(cfg, start, draws, VisitBound(cfg)).Halted()
    ensures cfg.graph.Closed() ==>
              Run(cfg, start, draws, VisitBound(cfg)).node == End
              && Run(cfg, start, draws, VisitBound(cfg)).state.outcome != InProgress
  {
    var k := VisitBound(cfg);
    var m := Run(cfg, start, draws, k);
    RankAfter(cfg, start, draws, k);
    InitialRank(cfg, start);
    OutcomeAlways(cfg, start, draws, k);
    if cfg.graph.Closed() { NeverRaises(cfg, start, draws, k); }
    if !m.Halted() {
      NodeAlways(cfg, start, draws, k);
      RankFalls(cfg, m, draws(k));
    }
    hide Step, Rank, Run;
  }

  lemma InitialRank(cfg: Config, start: ScreenId)
    ensures Rank(cfg, Initial(start)) == VisitBound(cfg)
  {}

  // The bound is strictly below the recursion limit handed to the engine
  // whenever at least one step is allowed.
  lemma BelowRecursionLimit(cfg: Config)
    requires cfg.maxSteps >= 1
    ensures VisitBound(cfg) < RecursionLimit(cfg)
  {
    var n, c := cfg.maxSteps, Cycle(cfg);
    assert c <= 8 + cfg.maxScans;
    assert n * c <= n * (8 + cfg.maxScans);
  }

  lemma {:induction false} StaysHalted(cfg: Config, start: ScreenId, draws: nat -> Draw, j: nat, k: nat)
    requires j <= k && Run(cfg, start, draws, j).Halted()
    ensures Run(cfg, start, draws, k) == Run(cfg, start, draws, j)
  {
    hide Step;
    if j < k {
      StaysHalted(cfg, start, draws, j, k - 1);
      HaltedStays(cfg, Run(cfg, start, draws, j), draws(k - 1));
    }
  }

  lemma HaltsFromBound(cfg: Config, start: ScreenId, draws: nat -> Draw, k: nat)
    requires k >= VisitBound(cfg)
    ensures Run(cfg, start, draws, k).Halted()
  {
    hide Run, VisitBound;
    EveryRunEnds(cfg, start, draws);
    StaysHalted(cfg, start, draws, VisitBound(cfg), k);
  }

  // With at least one step allowed, a run has halted after
  // maxSteps * (8 + maxScans) + 19 visits, one below the engine's limit.
  lemma HaltsInTime(cfg: Config, start: ScreenId, draws: nat -> Draw)
    requires cfg.maxSteps >= 1
    ensures Run(cfg, start, draws, cfg.maxSteps * (8 + cfg.maxScans) + 19).Halted()
  {
    hide Run, VisitBound;
    BelowRecursionLimit(cfg);
    HaltsFromBound(cfg, start, draws, cfg.maxSteps * (8 + cfg.maxScans) + 19);
  }
}
