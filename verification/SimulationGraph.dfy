/** The per-participant simulation loop: ten nodes over one state record, driven
    by arbitrary scores and random draws. Every node is a function of the state;
    `Step` is one node visit and `Run` the machine after k visits. */
module SimulationGraph {
  import opened Domain
  import opened Sampling

  datatype Outcome = InProgress | Completed | Failed | Abandoned

  datatype ParticipantModel = Heuristic | Random | SaliencyOnly | TaskOnly

  datatype Action = Action(action: ActionType, target: Option<ElementId>)

  datatype Entry = Entry(action: ActionType, target: Option<ElementId>, step: nat)

  datatype State = State(
    current: ScreenId,
    history: seq<ScreenId>,
    progress: real,
    uncertainty: real,
    attention: Option<seq<real>>,
    actionHistory: seq<Entry>,
    deadEnds: nat,
    backtracks: nat,
    action: Option<Action>,
    events: seq<Event>,
    sequenceNo: int,
    step: nat,
    outcome: Outcome,
    reason: Option<Reason>,
    scanCount: nat,
    intended: Option<ElementId>,
    found: bool
  )

  // What the model and the random stream supply to one node visit: a score for
  // each candidate (0 where none is given), the uniform draw, the gaze time.
  datatype Draw = Draw(scores: seq<real>, roll: real, duration: nat) {
    function Scores(n: nat): (r: seq<real>)
      ensures |r| == n
    {
      seq(n, i requires i >= 0 => if i < |scores| then scores[i] else 0.0)
    }
  }

  datatype Config = Config(
    graph: ScreenGraph,
    task: Task,
    patience: real,
    model: ParticipantModel,
    exp: Exp,
    maxSteps: nat,
    maxScans: nat
  )

  const DEFAULT_MAX_STEPS := 40

  datatype Node =
    | Orient
    | Perceive
    | Attend
    | ActOnIntended
    | ScanExhausted
    | Interpret
    | SelectAction
    | ExecuteAction
    | UpdateState
    | CheckTask
    | End
    | Raised // an exception escaped a node

  datatype Machine = Machine(node: Node, state: State) {
    predicate Halted() {
      node == End || node == Raised
    }
  }

  function MakeEvent(s: State, kind: EventKind, screen: Option<ScreenId>, payload: Payload): Event {
    Event(s.sequenceNo, kind, screen, None, None, payload)
  }

  function Emit(s: State, e: Event): State {
    s.(events := s.events + [e], sequenceNo := s.sequenceNo + 1)
  }

  // ---- task evaluation ----

  // The first element of the screen a critical action names.
  function IntendedElement(elements: seq<ElementView>, critical: set<string>): (r: Option<ElementView>)
    ensures r.Some? ==> r.value in elements && r.value.Critical(critical)
    ensures r.None? ==> forall e :: e in elements ==> !e.Critical(critical)
  {
    if elements == [] then None
    else if elements[0].Critical(critical) then Some(elements[0])
    else IntendedElement(elements[1..], critical)
  }

  lemma {:induction false} IntendedIsFirst(elements: seq<ElementView>, critical: set<string>, i: nat)
    requires i < |elements| && elements[i].Critical(critical)
    requires forall j :: 0 <= j < i ==> !elements[j].Critical(critical)
    ensures IntendedElement(elements, critical) == Some(elements[i])
  {
    if i > 0 { IntendedIsFirst(elements[1..], critical, i - 1); }
  }

  function IntendedOn(cfg: Config, sid: ScreenId): Option<ElementView> {
    var screen := cfg.graph.Screen(sid);
    if screen.None? then None else IntendedElement(screen.value.elements, cfg.task.critical)
  }

  function EntryElement(g: ScreenGraph, entry: Entry): Option<ElementView> {
    if entry.target.None? then None else g.ElementAnywhere(entry.target.value)
  }

  predicate Satisfies(field: Field, text: Option<string>) {
    field.Value? && text == Some(field.text)
  }

  // One recorded action meets the element or the role the condition names.
  predicate EntrySatisfies(g: ScreenGraph, success: SuccessConditions, entry: Entry) {
    var e := EntryElement(g, entry);
    e.Some? && (Satisfies(success.elementKey, Some(e.value.elementKey))
                || Satisfies(success.semanticRole, e.value.semanticRole))
  }

  // The finish line: any recognized key that is satisfied is enough.
  predicate SuccessMet(g: ScreenGraph, success: SuccessConditions, current: ScreenId, history: seq<Entry>) {
    success.Recognized() &&
    ((g.Known(current) && Satisfies(success.screenKey, Some(g.Screen(current).value.screenKey)))
     || exists i :: 0 <= i < |history| && EntrySatisfies(g, success, history[i]))
  }

  function NamesHit(g: ScreenGraph, entry: Entry): set<string> {
    var e := EntryElement(g, entry);
    if e.Some? then e.value.Names() else {}
  }

  // The critical actions some recorded action matched.
  function Matched(g: ScreenGraph, critical: set<string>, history: seq<Entry>): set<string> {
    set c | c in critical && exists i :: 0 <= i < |history| && c in NamesHit(g, history[i])
  }

  function Quotient(a: real, b: real): real
    requires b > 0.0
  {
    a / b
  }

  function Ratio(part: nat, whole: nat): real
    requires whole > 0
  {
    Quotient(part as real, whole as real)
  }

  function Min(a: real, b: real): real {
    if a <= b then a else b
  }

  function Max0(a: real): real {
    if a <= 0.0 then 0.0 else a
  }

  // Progress the critical actions alone can award.
  function Milestones(cfg: Config, history: seq<Entry>): real
    requires cfg.task.critical != {}
  {
    var raw := Ratio(|Matched(cfg.graph, cfg.task.critical, history)|, |cfg.task.critical|);
    if cfg.task.success.Recognized() then Min(raw, 0.99) else raw
  }

  function Exploration(s: State): real {
    Min(0.9, 0.15 * |(set sid | sid in s.history) + {s.current}| as real)
  }

  function ProgressOf(cfg: Config, s: State): real {
    if SuccessMet(cfg.graph, cfg.task.success, s.current, s.actionHistory) then 1.0
    else if cfg.task.critical != {} then Milestones(cfg, s.actionHistory)
    else Exploration(s)
  }

  // ---- candidates offered by the participant models ----

  function DefaultAction(e: ElementView): ActionType {
    if e.kind == "input" then TypeText
    else if e.kind == "select" || e.semanticRole == Some("select") || e.semanticRole == Some("option") then Select
    else Click
  }

  function ElementActions(elements: seq<ElementView>): (r: seq<Action>)
    ensures forall a :: a in r ==>
              exists e :: e in elements && e.interactable && a == Action(DefaultAction(e), Some(e.id))
  {
    if elements == [] then []
    else
      (if elements[0].interactable then [Action(DefaultAction(elements[0]), Some(elements[0].id))] else [])
      + ElementActions(elements[1..])
  }

  function Interactables(elements: seq<ElementView>): nat {
    if elements == [] then 0 else (if elements[0].interactable then 1 else 0) + Interactables(elements[1..])
  }

  // Every interactable element is offered once, in the order of the screen, with
  // its default action, and nothing else is.
  lemma {:induction false} EachIsOffered(elements: seq<ElementView>, i: nat)
    requires i < |elements|
    ensures |ElementActions(elements)| == Interactables(elements)
    ensures elements[i].interactable ==>
              Interactables(elements[..i]) < Interactables(elements)
              && ElementActions(elements)[Interactables(elements[..i])] == Action(DefaultAction(elements[i]), Some(elements[i].id))
  {
    hide DefaultAction;
    if i > 0 {
      EachIsOffered(elements[1..], i - 1);
      assert elements[..i][1..] == elements[1..][..i - 1];
    } else {
      OfferedCount(elements[1..]);
    }
  }

  lemma {:induction false} OfferedCount(elements: seq<ElementView>)
    ensures |ElementActions(elements)| == Interactables(elements)
  {
    if elements != [] { OfferedCount(elements[1..]); }
  }

  predicate OffersBack(cfg: Config, s: State) {
    cfg.model == Heuristic && s.actionHistory != [] && s.backtracks < 3
  }

  function ActionCandidates(cfg: Config, s: State, screen: ScreenView): (r: seq<Action>)
    ensures r != []
  {
    ElementActions(screen.elements)
    + [Action(Scroll, None)]
    + (if OffersBack(cfg, s) then [Action(Back, None)] else [])
  }

  // ---- the nodes ----

  function OrientNode(s: State): State {
    Emit(s, MakeEvent(s, ScreenEnter, Some(s.current), Nothing)).(outcome := InProgress)
  }

  function AttendNode(cfg: Config, s: State, screen: ScreenView, d: Draw): State {
    var intended := IntendedElement(screen.elements, cfg.task.critical);
    var intendedId := if intended.Some? then Some(intended.value.id) else None;
    var scans := if intended.Some? then s.scanCount + 1 else s.scanCount;
    var scores := d.Scores(|screen.elements|);
    var looked := s.(attention := Some(scores), scanCount := scans, intended := intendedId);
    if screen.elements == [] then looked.(found := false)
    else
      var at := Pick(cfg.exp, scores, d.roll);
      var gazed := screen.elements[at].id;
      Emit(looked, Event(s.sequenceNo, Gaze, Some(screen.id), Some(gazed), Some(d.duration), Gazed(scores[at], scans)))
      .(found := intendedId == Some(gazed))
  }

  function RouteAfterAttend(cfg: Config, s: State): Node {
    if s.intended.None? then Interpret
    else if s.found then ActOnIntended
    else if s.scanCount >= cfg.maxScans then ScanExhausted
    else Attend
  }

  function ScanExhaustedNode(s: State): State {
    Emit(s, MakeEvent(s, Abandon, Some(s.current), Because(IntendedActionNotDiscovered)))
    .(outcome := Abandoned, reason := Some(IntendedActionNotDiscovered))
  }

  function Total(xs: seq<real>): real {
    if xs == [] then 0.0 else Total(xs[..|xs| - 1]) + xs[|xs| - 1]
  }

  function Mean(xs: seq<real>): real
    requires xs != []
  {
    Total(xs) / |xs| as real
  }

  function UncertaintyAfter(attention: Option<seq<real>>, before: real): real {
    if attention.Some? && attention.value != [] then
      Max0(Min(1.0, 0.6 - (Max(attention.value) - Mean(attention.value))))
    else Min(1.0, before + 0.1)
  }

  function SelectActionNode(cfg: Config, s: State, screen: ScreenView, d: Draw): (r: State)
    ensures r == s.(action := r.action)
    ensures r.action.Some? && r.action.value in ActionCandidates(cfg, s, screen)
  {
    var candidates := ActionCandidates(cfg, s, screen);
    s.(action := Some(candidates[Pick(cfg.exp, d.Scores(|candidates|), d.roll)]))
  }

  predicate Navigates(a: Action) {
    a.target.Some? && a.action in {Click, Tap, Open, Select}
  }

  // Where the action leads, and the bookkeeping of history and dead ends.
  function Moved(g: ScreenGraph, s: State, a: Action): State {
    if a.action == Back then
      if s.history != [] then
        s.(current := s.history[|s.history| - 1], history := s.history[..|s.history| - 1], backtracks := s.backtracks + 1)
      else s
    else if Navigates(a) then
      var edge := Lookup(g.transitions, s.current, a.target.value);
      if edge.Some? then s.(history := s.history + [s.current], current := edge.value.to)
      else s.(deadEnds := s.deadEnds + 1)
    else s
  }

  function ActionEvent(s: State, a: Action): Event {
    Event(s.sequenceNo, Acted(a.action), Some(s.current), a.target, None, Nothing)
  }

  function ScreenChange(s: State, from: ScreenId): State {
    if s.current == from then s
    else
      var left := Emit(s, MakeEvent(s, ScreenExit, Some(from), Nothing));
      Emit(left, MakeEvent(left, ScreenEnter, Some(left.current), Nothing)).(scanCount := 0)
  }

  function ExecuteNode(g: ScreenGraph, s: State, a: Action): State {
    var acted := Emit(s, ActionEvent(s, a));
    ScreenChange(Moved(g, acted, a), s.current)
    .(actionHistory := s.actionHistory + [Entry(a.action, a.target, s.step)], step := s.step + 1)
  }

  function UpdateNode(cfg: Config, s: State): State {
    var progress := ProgressOf(cfg, s);
    var noted := if progress - s.progress > 0.01 || s.progress - progress > 0.01
                 then Emit(s, MakeEvent(s, TaskProgress, None, Progress(progress))) else s;
    noted.(progress := progress)
  }

  // A screen is a dead end when nothing on it can be acted on and there is no
  // screen to go back to.
  predicate Stuck(s: State, screen: ScreenView) {
    (forall e :: e in screen.elements ==> !e.interactable) && s.history == []
  }

  function AbandonPressure(uncertainty: real, patience: real, deadEnds: nat): real {
    uncertainty * (1.0 - patience) + 0.1 * Min(1.0, deadEnds as real / 4.0)
  }

  function Finish(s: State, kind: EventKind, outcome: Outcome, reason: Option<Reason>): State {
    Emit(s, MakeEvent(s, kind, None, if reason.Some? then Because(reason.value) else Progress(1.0)))
    .(outcome := outcome, reason := reason)
  }

  function CheckNode(cfg: Config, s: State): Machine {
    if s.progress >= 1.0 then Machine(End, Finish(s, TaskSuccess, Completed, None))
    else if s.step >= cfg.maxSteps then Machine(End, Finish(s, Abandon, Abandoned, Some(MaxStepsExceeded)))
    else
      var screen := cfg.graph.Screen(s.current);
      if screen.None? then Machine(Raised, s)
      else if Stuck(s, screen.value) then Machine(End, Finish(s, TaskFailure, Failed, Some(DeadEndNoActions)))
      else if AbandonPressure(s.uncertainty, cfg.patience, s.deadEnds) > 0.75 && s.step > 5
      then Machine(End, Finish(s, Abandon, Abandoned, Some(LowPatienceHighUncertainty)))
      else Machine(Perceive, s.(outcome := InProgress, reason := None))
  }

  // One node visit, then the router.
  function Step(cfg: Config, m: Machine, d: Draw): Machine {
    var s := m.state;
    var screen := cfg.graph.Screen(s.current);
    match m.node
    case Orient => Machine(Perceive, OrientNode(s))
    case Perceive =>
      if screen.None? then Machine(End, s.(outcome := Failed, reason := Some(ScreenNotFound)))
      else Machine(if s.outcome != InProgress then End else Attend, s)
    case Attend =>
      if screen.None? then Machine(Raised, s)
      else
        var looked := AttendNode(cfg, s, screen.value, d);
        Machine(RouteAfterAttend(cfg, looked), looked)
    case ActOnIntended =>
      if screen.None? || s.intended.None? || screen.value.Element(s.intended.value).None? then Machine(Raised, s)
      else
        var e := screen.value.Element(s.intended.value).value;
        Machine(ExecuteAction, s.(action := Some(Action(DefaultAction(e), Some(e.id)))))
    case ScanExhausted => Machine(End, ScanExhaustedNode(s))
    case Interpret => Machine(SelectAction, s.(uncertainty := UncertaintyAfter(s.attention, s.uncertainty)))
    case SelectAction =>
      if screen.None? then Machine(Raised, s)
      else Machine(ExecuteAction, SelectActionNode(cfg, s, screen.value, d))
    case ExecuteAction =>
      if screen.None? || s.action.None? then Machine(Raised, s)
      else Machine(UpdateState, ExecuteNode(cfg.graph, s, s.action.value))
    case UpdateState => Machine(CheckTask, UpdateNode(cfg, s))
    case CheckTask => CheckNode(cfg, s)
    case End => m
    case Raised => m
  }

  function InitialState(start: ScreenId): State {
    State(start, [], 0.0, 0.3, None, [], 0, 0, None, [], 0, 0, InProgress, None, 0, None, false)
  }

  function Initial(start: ScreenId): Machine {
    Machine(Orient, InitialState(start))
  }

  // The machine after k node visits; `draws` supplies visit i's randomness.
  ghost function Run(cfg: Config, start: ScreenId, draws: nat -> Draw, k: nat): Machine {
    if k == 0 then Initial(start) else Step(cfg, Run(cfg, start, draws, k - 1), draws(k - 1))
  }
}
