/** The views the simulation engine and the analytics engine pass around:
    elements, screens, the screen graph, the task and the recorded events. */
module Domain {
  type ScreenId = nat
  type ElementId = nat

  datatype Option<+T> = None | Some(value: T)

  datatype ActionType = Click | Tap | Open | Select | TypeText | Scroll | Back

  datatype ElementView = ElementView(
    id: ElementId,
    elementKey: string,
    kind: string,
    semanticRole: Option<string>,
    interactable: bool
  ) {
    // The two names a critical action may refer to; a missing role counts as "".
    function Names(): set<string> {
      {elementKey, if semanticRole.Some? then semanticRole.value else ""}
    }

    predicate Critical(critical: set<string>) {
      Names() * critical != {}
    }
  }

  datatype ScreenView = ScreenView(id: ScreenId, screenKey: string, elements: seq<ElementView>) {
    function Element(eid: ElementId): Option<ElementView> {
      FirstElement(elements, eid)
    }
  }

  function FirstElement(elements: seq<ElementView>, eid: ElementId): (r: Option<ElementView>)
    ensures r.Some? ==> r.value in elements && r.value.id == eid
    ensures r.None? ==> forall e :: e in elements ==> e.id != eid
  {
    if elements == [] then None
    else if elements[0].id == eid then Some(elements[0])
    else FirstElement(elements[1..], eid)
  }

  datatype Transition = Transition(from: ScreenId, trigger: ElementId, action: string, to: ScreenId)

  // `screens` keeps the insertion order of the source's dictionary.
  datatype ScreenGraph = ScreenGraph(screens: seq<ScreenView>, transitions: seq<Transition>) {
    function Screen(sid: ScreenId): Option<ScreenView> {
      FirstScreen(screens, sid)
    }

    function ElementAnywhere(eid: ElementId): Option<ElementView> {
      FindElement(screens, eid)
    }

    predicate Known(sid: ScreenId) {
      Screen(sid).Some?
    }

    // Every edge ends on a screen of the graph (the foreign keys of the table).
    predicate Closed() {
      forall t :: t in transitions ==> Known(t.to)
    }

    // Element ids are primary keys: one id names one element.
    predicate UniqueElements() {
      forall a, b, e, f :: a in screens && b in screens && e in a.elements && f in b.elements && e.id == f.id
                           ==> e == f
    }

    ghost predicate HasElements() {
      forall sid :: Known(sid) ==> Screen(sid).value.elements != []
    }
  }

  predicate Loopless(ts: seq<Transition>) {
    forall t :: t in ts ==> t.from != t.to
  }

  function FirstScreen(screens: seq<ScreenView>, sid: ScreenId): (r: Option<ScreenView>)
    ensures r.Some? ==> r.value in screens && r.value.id == sid
    ensures r.None? ==> forall sc :: sc in screens ==> sc.id != sid
  {
    if screens == [] then None
    else if screens[0].id == sid then Some(screens[0])
    else FirstScreen(screens[1..], sid)
  }

  function FindElement(screens: seq<ScreenView>, eid: ElementId): (r: Option<ElementView>)
    ensures r.Some? ==> r.value.id == eid && exists sc :: sc in screens && r.value in sc.elements
  {
    if screens == [] then None
    else if screens[0].Element(eid).Some? then screens[0].Element(eid)
    else FindElement(screens[1..], eid)
  }

  // A text names an element by its key or by its role; "" is the role of an
  // element without one.
  ghost predicate NamedBy(e: ElementView, text: string) {
    || text == e.elementKey
    || (e.semanticRole.Some? && text == e.semanticRole.value)
    || (e.semanticRole.None? && text == "")
  }

  lemma NamesAre(e: ElementView, text: string)
    ensures text in e.Names() <==> NamedBy(e, text)
  {}

  // The key of the element is listed, or its role is, or it has no role and "" is
  // listed.
  ghost predicate Listed(e: ElementView, critical: set<string>) {
    || e.elementKey in critical
    || (e.semanticRole.Some? && e.semanticRole.value in critical)
    || (e.semanticRole.None? && "" in critical)
  }

  lemma CriticalIs(e: ElementView, critical: set<string>)
    ensures e.Critical(critical) <==> Listed(e, critical)
  {
    if e.Critical(critical) {
      var text :| text in e.Names() * critical;
    } else {
      assert forall text :: text in e.Names() ==> text !in critical by {
        assert forall text :: text in e.Names() && text in critical ==> text in e.Names() * critical;
      }
      assert e.elementKey in e.Names();
      assert (if e.semanticRole.Some? then e.semanticRole.value else "") in e.Names();
    }
  }

  // The search finds an element of any screen by its id.
  lemma {:induction false} FindsAny(screens: seq<ScreenView>, eid: ElementId)
    ensures FindElement(screens, eid).None? ==> forall sc, e :: sc in screens && e in sc.elements ==> e.id != eid
  {
    if screens != [] { FindsAny(screens[1..], eid); }
  }

  // An id names the one element that has it.
  lemma FindsTheElement(g: ScreenGraph, eid: ElementId, sc: ScreenView, e: ElementView)
    requires g.UniqueElements() && sc in g.screens && e in sc.elements && e.id == eid
    ensures g.ElementAnywhere(eid) == Some(e)
  {
    FindsAny(g.screens, eid);
  }

  // First stored edge leaving `sid` by the element `eid`.
  function Lookup(transitions: seq<Transition>, sid: ScreenId, eid: ElementId): (r: Option<Transition>)
    ensures r.Some? ==> r.value in transitions && r.value.from == sid && r.value.trigger == eid
    ensures r.None? ==> forall t :: t in transitions ==> !(t.from == sid && t.trigger == eid)
  {
    if transitions == [] then None
    else if transitions[0].from == sid && transitions[0].trigger == eid then Some(transitions[0])
    else Lookup(transitions[1..], sid, eid)
  }

  lemma {:induction false} LookupIsFirst(transitions: seq<Transition>, sid: ScreenId, eid: ElementId, i: nat)
    requires i < |transitions| && transitions[i].from == sid && transitions[i].trigger == eid
    requires forall j :: 0 <= j < i ==> !(transitions[j].from == sid && transitions[j].trigger == eid)
    ensures Lookup(transitions, sid, eid) == Some(transitions[i])
  {
    if i > 0 { LookupIsFirst(transitions[1..], sid, eid, i - 1); }
  }

  // A key of the freeform success_conditions dictionary: not there, there with
  // a null value, or there with a text.
  datatype Field = Absent | Null | Value(text: string)

  datatype SuccessConditions = SuccessConditions(screenKey: Field, elementKey: Field, semanticRole: Field) {
    predicate Recognized() {
      !screenKey.Absent? || !elementKey.Absent? || !semanticRole.Absent?
    }
  }

  datatype Task = Task(startingPoint: Option<string>, success: SuccessConditions, critical: set<string>) {
    predicate HasFinishLine() {
      success.Recognized() || critical != {}
    }
  }

  datatype Reason =
    | ScreenNotFound
    | IntendedActionNotDiscovered
    | MaxStepsExceeded
    | DeadEndNoActions
    | LowPatienceHighUncertainty

  datatype Payload = Nothing | Gazed(score: real, scanNumber: nat) | Progress(value: real) | Because(reason: Reason)

  datatype EventKind =
    | ScreenEnter
    | ScreenExit
    | Gaze
    | Acted(action: ActionType)
    | TaskProgress
    | TaskSuccess
    | TaskFailure
    | Abandon

  datatype Event = Event(
    sequenceNo: int,
    kind: EventKind,
    screen: Option<ScreenId>,
    element: Option<ElementId>,
    durationMs: Option<int>,
    payload: Payload
  )

  // Starting screen: the first one carrying the requested key, else the first.
  function ResolveStartingScreen(g: ScreenGraph, startingPoint: Option<string>): (r: Option<ScreenId>)
    ensures r.None? <==> g.screens == []
    ensures r.Some? ==> g.Known(r.value)
  {
    var named := if startingPoint.Some? && startingPoint.value != "" then FirstKeyed(g.screens, startingPoint.value) else None;
    if named.Some? then Some(named.value.id)
    else if g.screens == [] then None
    else Some(g.screens[0].id)
  }

  function FirstKeyed(screens: seq<ScreenView>, key: string): (r: Option<ScreenView>)
    ensures r.Some? ==> r.value in screens && r.value.screenKey == key
    ensures r.None? ==> forall sc :: sc in screens ==> sc.screenKey != key
  {
    if screens == [] then None
    else if screens[0].screenKey == key then Some(screens[0])
    else FirstKeyed(screens[1..], key)
  }

  lemma {:induction false} FirstKeyedIsFirst(screens: seq<ScreenView>, key: string, i: nat)
    requires i < |screens| && screens[i].screenKey == key
    requires forall j :: 0 <= j < i ==> screens[j].screenKey != key
    ensures FirstKeyed(screens, key) == Some(screens[i])
  {
    if i > 0 { FirstKeyedIsFirst(screens[1..], key, i - 1); }
  }

  // The first screen with the requested key is the one; without a request, or
  // when no screen has the key, it is the first screen of the graph.
  lemma StartingScreenIs(g: ScreenGraph, startingPoint: Option<string>, i: nat)
    requires i < |g.screens|
    requires if startingPoint.Some? && startingPoint.value != "" && exists sc :: sc in g.screens && sc.screenKey == startingPoint.value
             then g.screens[i].screenKey == startingPoint.value && forall j :: 0 <= j < i ==> g.screens[j].screenKey != startingPoint.value
             else i == 0
    ensures ResolveStartingScreen(g, startingPoint) == Some(g.screens[i].id)
  {
    if startingPoint.Some? && startingPoint.value != "" && exists sc :: sc in g.screens && sc.screenKey == startingPoint.value {
      FirstKeyedIsFirst(g.screens, startingPoint.value, i);
    }
  }
}
