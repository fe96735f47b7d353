/** When a chosen set of transitions can lead from the entry to the success
    screen, and an attempt that does but is not the one kept. */
module ScreenConnections {
  import opened Domain
  import opened Reach
  import opened ScreenRoles
  import opened ScreenTransitions

  // ---- an attempt that connects can lose ----

  const ENTRY := ScreenView(0, "entry", [ElementView(0, "next", "button", None, true), ElementView(1, "skip", "button", None, true)])
  const MIDDLE := ScreenView(1, "middle", [ElementView(2, "next", "button", None, true)])
  const ASIDE := ScreenView(2, "aside", [])
  const SUCCESS := ScreenView(3, "success", [])
  const FLOW := [ENTRY, MIDDLE, ASIDE, SUCCESS]

  const TO_MIDDLE := Transition(0, 0, "click", 1)
  const TO_ASIDE := Transition(1, 2, "click", 2)
  const TO_SUCCESS := Transition(0, 1, "click", 3)

  const FIRST_ANSWER := [Inferred("entry", "next", "click", "middle"), Inferred("middle", "next", "click", "aside")]
  const SECOND_ANSWER := [Inferred("entry", "skip", "click", "success")]

  lemma FlowKeys()
    ensures LastKeyed(FLOW, "entry") == Some(ENTRY) && LastKeyed(FLOW, "middle") == Some(MIDDLE)
    ensures LastKeyed(FLOW, "aside") == Some(ASIDE) && LastKeyed(FLOW, "success") == Some(SUCCESS)
    ensures FirstKeyed(FLOW, "success") == Some(SUCCESS)
  {
    assert "entry"[0] == 'e' && "middle"[0] == 'm' && "aside"[0] == 'a' && "success"[0] == 's';
    forall sc | sc in FLOW
      ensures sc == ENTRY || sc == MIDDLE || sc == ASIDE || sc == SUCCESS
    {
    }
    assert ENTRY in FLOW && MIDDLE in FLOW && ASIDE in FLOW && SUCCESS in FLOW by {
      assert FLOW[0] == ENTRY && FLOW[1] == MIDDLE && FLOW[2] == ASIDE && FLOW[3] == SUCCESS;
    }
  }

  lemma FlowTriggers()
    ensures TriggerOn(FLOW, "entry", "next") == Some(ENTRY.elements[0])
    ensures TriggerOn(FLOW, "entry", "skip") == Some(ENTRY.elements[1])
    ensures TriggerOn(FLOW, "middle", "next") == Some(MIDDLE.elements[0])
  {
    FlowKeys();
    assert ENTRY.elements[0].elementKey == "next" && ENTRY.elements[1].elementKey == "skip";
    assert "next"[0] != "skip"[0];
    assert ENTRY.elements[..1] == [ENTRY.elements[0]];
    assert LastNamed(ENTRY.elements, "skip") == Some(ENTRY.elements[1]);
    assert LastNamed(ENTRY.elements, "next") == LastNamed(ENTRY.elements[..1], "next");
    assert Holds(ENTRY, "next") && Holds(ENTRY, "skip") && Holds(MIDDLE, "next") by {
      assert ENTRY.elements[0] in ENTRY.elements && ENTRY.elements[1] in ENTRY.elements && MIDDLE.elements[0] in MIDDLE.elements;
    }
    hide LastKeyed, TriggerOn;
    TriggerOnLast(FLOW, "entry", "next");
    TriggerOnLast(FLOW, "entry", "skip");
    TriggerOnLast(FLOW, "middle", "next");
  }

  lemma FlowResolves()
    ensures Resolve(FLOW, map[], FIRST_ANSWER[0]) == Some(TO_MIDDLE)
    ensures Resolve(FLOW, map[], FIRST_ANSWER[1]) == Some(TO_ASIDE)
    ensures Resolve(FLOW, map[], SECOND_ANSWER[0]) == Some(TO_SUCCESS)
  {
    FlowKeys();
    FlowTriggers();
    hide LastKeyed, TriggerOn;
  }

  lemma PairMembers(a: Transition, b: Transition, ts: seq<Transition>, source: seq<nat>)
    requires !SameTrigger(a, b) && FirstWins([Some(a), Some(b)], ts, source)
    ensures forall t :: t in ts <==> t == a || t == b
  {
    hide FirstWins;
    var rs := [Some(a), Some(b)];
    assert FirstOfTrigger(rs, 0) && FirstOfTrigger(rs, 1);
    forall t
      ensures t in ts <==> t == a || t == b
    {
      StoredIff(rs, ts, source, t);
    }
  }

  lemma FirstMembers(ts: seq<Transition>)
    requires ResolvedFrom(FLOW, map[], FIRST_ANSWER, ts)
    ensures forall t :: t in ts <==> t == TO_MIDDLE || t == TO_ASIDE
  {
    FlowResolves();
    hide Resolve, FirstWins;
    var source :| FirstWins(Resolved(FLOW, map[], FIRST_ANSWER), ts, source);
    assert Resolved(FLOW, map[], FIRST_ANSWER) == [Some(TO_MIDDLE), Some(TO_ASIDE)];
    PairMembers(TO_MIDDLE, TO_ASIDE, ts, source);
  }

  lemma SecondMembers(ts: seq<Transition>)
    requires ResolvedFrom(FLOW, map[], SECOND_ANSWER, ts)
    ensures forall t :: t in ts <==> t == TO_SUCCESS
  {
    FlowResolves();
    var rs := Resolved(FLOW, map[], SECOND_ANSWER);
    var source :| FirstWins(rs, ts, source);
    assert rs == [Some(TO_SUCCESS)];
    hide Resolve, FirstWins, Resolved, ResolvedFrom;
    assert FirstOfTrigger(rs, 0);
    forall t
      ensures t in ts <==> t == TO_SUCCESS
    {
      StoredIff(rs, ts, source, t);
    }
  }

  lemma {:induction false} StaysIn(ts: seq<Transition>, start: ScreenId, region: set<ScreenId>, x: ScreenId, n: nat)
    requires start in region && Within(ts, start, x, n)
    requires forall t :: t in ts && t.from in region ==> t.to in region
    ensures x in region
    decreases n
  {
    if n > 0 {
      if Within(ts, start, x, n - 1) {
        StaysIn(ts, start, region, x, n - 1);
      } else {
        var t :| t in ts && t.to == x && Within(ts, start, t.from, n - 1);
        StaysIn(ts, start, region, t.from, n - 1);
      }
    }
  }

  lemma FirstReach(ts: seq<Transition>, reached: set<ScreenId>)
    requires (forall t :: t in ts <==> t == TO_MIDDLE || t == TO_ASIDE) && IsReach(ts, 0, reached)
    ensures reached == {0, 1, 2}
  {
    assert Within(ts, 0, 0, 0) && Within(ts, 0, 1, 1) && Within(ts, 0, 2, 2) by {
      assert TO_MIDDLE in ts && TO_ASIDE in ts;
    }
    forall x | x in reached
      ensures x in {0, 1, 2}
    {
      var n: nat :| Within(ts, 0, x, n);
      StaysIn(ts, 0, {0, 1, 2}, x, n);
    }
  }

  lemma SecondReach(ts: seq<Transition>, reached: set<ScreenId>)
    requires (forall t :: t in ts <==> t == TO_SUCCESS) && IsReach(ts, 0, reached)
    ensures reached == {0, 3}
  {
    assert Within(ts, 0, 0, 0) && Within(ts, 0, 3, 1) by {
      assert TO_SUCCESS in ts;
    }
    forall x | x in reached
      ensures x in {0, 3}
    {
      var n: nat :| Within(ts, 0, x, n);
      StaysIn(ts, 0, {0, 3}, x, n);
    }
  }

  lemma FirstAttempt(ts: seq<Transition>, a: Attempt)
    requires ResolvedFrom(FLOW, map[], FIRST_ANSWER, ts) && SumsUp(FLOW, ts, "entry", Some("success"), a)
    ensures a == Attempt(3, false) && !Reachable(ts, ENTRY.id, SUCCESS.id)
  {
    FlowKeys();
    FirstMembers(ts);
    hide LastKeyed, FirstKeyed, ResolvedFrom;
    var reached: set<ScreenId> :|
      && a.reached == |reached| && IsReach(ts, 0, reached)
      && (a.connects <==> SUCCESS.id in reached);
    FirstReach(ts, reached);
  }

  lemma SecondAttempt(ts: seq<Transition>, a: Attempt)
    requires ResolvedFrom(FLOW, map[], SECOND_ANSWER, ts) && SumsUp(FLOW, ts, "entry", Some("success"), a)
    ensures a == Attempt(2, true)
  {
    FlowKeys();
    SecondMembers(ts);
    hide LastKeyed, FirstKeyed, ResolvedFrom;
    var reached: set<ScreenId> :|
      && a.reached == |reached| && IsReach(ts, 0, reached)
      && (a.connects <==> SUCCESS.id in reached);
    SecondReach(ts, reached);
  }

  // Whatever the third answer would be: the second one connects entry to success
  // and ends the search, and yet the first one is kept, in which the success
  // screen cannot be reached.
  lemma ConnectingAttemptCanLose(third: seq<Inferred>, best: seq<Transition>,
                                 tried: seq<seq<Transition>>, attempts: seq<Attempt>, chosen: nat)
    requires Kept(FLOW, map[], "entry", Some("success"), [FIRST_ANSWER, SECOND_ANSWER, third], best, tried, attempts, chosen)
    ensures attempts == [Attempt(3, false), Attempt(2, true)] && chosen == 0
    ensures !Reachable(best, ENTRY.id, SUCCESS.id)
  {
    hide ResolvedFrom, SumsUp, Reachable;
    FirstAttempt(tried[0], attempts[0]);
    assert |tried| > 1;
    SecondAttempt(tried[1], attempts[1]);
  }

  // ---- which attempts can connect at all ----

  ghost predicate UniqueIds(screens: seq<ScreenView>) {
    forall a, b :: a in screens && b in screens && a.id == b.id ==> a == b
  }

  // The screens of a flow, their collapsed keys, and its entry and success.
  ghost predicate Flow(screens: seq<ScreenView>, order: map<string, nat>, roles: Roles, canonical: map<string, string>,
                       entry: ScreenView, success: ScreenView) {
    && UniqueIds(screens) && UniqueKeys(screens)
    && Backward(order, roles) && canonical.Keys == roles.Keys
    && (forall k :: k in roles ==> canonical[k] == Root(order, roles, k))
    && entry in screens && success in screens
  }

  predicate Survives(canonical: map<string, string>, screen: ScreenView) {
    Canonical(canonical, screen.screenKey) == screen.screenKey
  }

  lemma KeyedIs(screens: seq<ScreenView>, sc: ScreenView)
    requires UniqueKeys(screens) && sc in screens
    ensures LastKeyed(screens, sc.screenKey) == Some(sc) && FirstKeyed(screens, sc.screenKey) == Some(sc)
  {}

  // Every stored transition leaves a surviving screen that has an element, and
  // enters a surviving screen.
  lemma StoredSurvives(screens: seq<ScreenView>, order: map<string, nat>, roles: Roles, canonical: map<string, string>,
                       entry: ScreenView, success: ScreenView, inferred: seq<Inferred>, ts: seq<Transition>, t: Transition)
    requires Flow(screens, order, roles, canonical, entry, success)
    requires ResolvedFrom(screens, canonical, inferred, ts) && t in ts
    ensures t.from == entry.id ==> Survives(canonical, entry) && entry.elements != []
    ensures t.to == success.id ==> Survives(canonical, success)
  {
    hide Root, Resolve;
    var source :| FirstWins(Resolved(screens, canonical, inferred), ts, source);
    var i :| 0 <= i < |ts| && ts[i] == t;
    var edge := inferred[source[i]];
    assert Resolve(screens, canonical, edge) == Some(t);
    hide FirstWins, Resolved, ResolvedFrom;
    var from, to, owner, e := ResolvedEnds(order, roles, screens, canonical, edge);
    hide LastKeyed, Holds;
    assert from in screens && to in screens;
  }

  // A walk that gets anywhere leaves its start and enters its end.
  lemma {:induction false} FirstAndLast(ts: seq<Transition>, a: ScreenId, b: ScreenId, n: nat)
    requires Within(ts, a, b, n) && a != b
    ensures exists t :: t in ts && t.from == a
    ensures exists t :: t in ts && t.to == b
    decreases n
  {
    if Within(ts, a, b, n - 1) {
      FirstAndLast(ts, a, b, n - 1);
    } else {
      var t :| t in ts && t.to == b && Within(ts, a, t.from, n - 1);
      if t.from != a { FirstAndLast(ts, a, t.from, n - 1); }
    }
  }

  lemma LoneEdge(screens: seq<ScreenView>, canonical: map<string, string>, edge: Inferred)
    requires Resolve(screens, canonical, edge).Some?
    ensures ResolvedFrom(screens, canonical, [edge], [Resolve(screens, canonical, edge).value])
  {
    hide Resolve;
    var t := Resolve(screens, canonical, edge).value;
    var rs := Resolved(screens, canonical, [edge]);
    assert rs == [Some(t)];
    assert FirstWins(rs, [t], [0]);
  }

  lemma DirectEdge(screens: seq<ScreenView>, order: map<string, nat>, roles: Roles, canonical: map<string, string>,
                   entry: ScreenView, success: ScreenView) returns (inferred: seq<Inferred>, ts: seq<Transition>)
    requires Flow(screens, order, roles, canonical, entry, success)
    requires entry != success && Survives(canonical, entry) && Survives(canonical, success) && entry.elements != []
    ensures ResolvedFrom(screens, canonical, inferred, ts) && Reachable(ts, entry.id, success.id)
  {
    KeyedIs(screens, entry);
    KeyedIs(screens, success);
    hide Root, Backward, LastKeyed, FirstKeyed, ResolvedFrom;
    var edge := Inferred(entry.screenKey, entry.elements[0].elementKey, "click", success.screenKey);
    assert TriggerOn(screens, entry.screenKey, edge.elementKey).Some?;
    hide TriggerOn;
    LoneEdge(screens, canonical, edge);
    var t := Resolve(screens, canonical, edge).value;
    inferred, ts := [edge], [t];
    assert t in ts && Within(ts, entry.id, entry.id, 0) && Within(ts, entry.id, success.id, 1);
  }

  // Some answer of the model can connect entry to success if and only if they
  // are one screen, or both survive the collapsing and the entry has an element.
  lemma CanConnectIff(screens: seq<ScreenView>, order: map<string, nat>, roles: Roles, canonical: map<string, string>,
                      entry: ScreenView, success: ScreenView)
    requires Flow(screens, order, roles, canonical, entry, success)
    ensures (exists inferred, ts :: ResolvedFrom(screens, canonical, inferred, ts) && Reachable(ts, entry.id, success.id)) <==>
            entry == success || (Survives(canonical, entry) && Survives(canonical, success) && entry.elements != [])
  {
    if inferred, ts :| ResolvedFrom(screens, canonical, inferred, ts) && Reachable(ts, entry.id, success.id) {
      ConnectedMeans(screens, order, roles, canonical, entry, success, inferred, ts);
    }
    if entry == success {
      assert FirstWins(Resolved(screens, canonical, []), [], []);
      assert ResolvedFrom(screens, canonical, [], []);
      assert Within([], entry.id, success.id, 0);
    } else if Survives(canonical, entry) && Survives(canonical, success) && entry.elements != [] {
      var inferred, ts := DirectEdge(screens, order, roles, canonical, entry, success);
    }
    hide Flow, ResolvedFrom, Survives;
  }

  lemma ConnectedMeans(screens: seq<ScreenView>, order: map<string, nat>, roles: Roles, canonical: map<string, string>,
                       entry: ScreenView, success: ScreenView, inferred: seq<Inferred>, ts: seq<Transition>)
    requires Flow(screens, order, roles, canonical, entry, success)
    requires ResolvedFrom(screens, canonical, inferred, ts) && Reachable(ts, entry.id, success.id)
    ensures entry == success || (Survives(canonical, entry) && Survives(canonical, success) && entry.elements != [])
  {
    var n: nat :| Within(ts, entry.id, success.id, n);
    if entry != success {
      assert entry.id != success.id;
      hide ResolvedFrom, Root;
      FirstAndLast(ts, entry.id, success.id, n);
      var t :| t in ts && t.from == entry.id;
      var u :| u in ts && u.to == success.id;
      StoredSurvives(screens, order, roles, canonical, entry, success, inferred, ts, t);
      StoredSurvives(screens, order, roles, canonical, entry, success, inferred, ts, u);
    }
  }

  // A key survives exactly when no link is followed from it.
  lemma SurvivesIff(order: map<string, nat>, roles: Roles, canonical: map<string, string>, screen: ScreenView)
    requires Backward(order, roles) && canonical.Keys == roles.Keys
    requires forall k :: k in roles ==> canonical[k] == Root(order, roles, k)
    ensures Survives(canonical, screen) <==> Parent(roles, screen.screenKey).None?
  {
    var key := screen.screenKey;
    if key in roles && Parent(roles, key).Some? {
      assert Root(order, roles, key) == Root(order, roles, Parent(roles, key).value);
      assert order[Root(order, roles, key)] < order[key];
    }
  }

  // The success screen kept is the latest one claimed, and it survives exactly when
  // it was not itself reported as the twin of an earlier screen: of a success
  // screen uploaded in two renderings, both claimed and the second linked to the
  // first, the one kept is the one collapsed away.
  lemma SuccessSurvivesIff(screens: seq<ScreenView>, inferred: seq<Reported>, entries: Roles, roles: Roles,
                           canonical: map<string, string>, success: ScreenView)
    requires var order := KeyOrder(screens);
             KeptOne(order, Reports(order, inferred), "entry", true, entries) && KeptOne(order, entries, "success", false, roles)
    requires Backward(KeyOrder(screens), roles) && canonical.Keys == roles.Keys
    requires forall k :: k in roles ==> canonical[k] == Root(KeyOrder(screens), roles, k)
    requires success.screenKey in Claimants(roles, "success")
    ensures var order, reports := KeyOrder(screens), Reports(KeyOrder(screens), inferred);
            && Wins(order, Claimants(reports, "success"), success.screenKey, false)
            && (Survives(canonical, success) <==> Parent(reports, success.screenKey).None?)
  {
    var order := KeyOrder(screens);
    RolesUnique(screens, inferred, entries, roles);
    SurvivesIff(order, roles, canonical, success);
    ReportsBackward(order, inferred);
    KeptBackward(order, Reports(order, inferred), "entry", true, entries);
    KeptBackward(order, entries, "success", false, roles);
    hide KeptOne, Wins, Root, Backward, Survives;
  }

  // When none can connect, all three attempts are used up and the one kept, which
  // reaches the most screens, leaves success out of reach.
  lemma NoneConnects(screens: seq<ScreenView>, order: map<string, nat>, roles: Roles, canonical: map<string, string>,
                     entry: ScreenView, success: ScreenView, inferences: seq<seq<Inferred>>, best: seq<Transition>,
                     tried: seq<seq<Transition>>, attempts: seq<Attempt>, chosen: nat)
    requires Flow(screens, order, roles, canonical, entry, success) && entry != success
    requires !Survives(canonical, entry) || !Survives(canonical, success) || entry.elements == []
    requires Kept(screens, canonical, entry.screenKey, Some(success.screenKey), inferences, best, tried, attempts, chosen)
    ensures |tried| == |inferences| && !Reachable(best, entry.id, success.id)
    ensures forall j :: 0 <= j < |attempts| ==> !attempts[j].connects && attempts[j].reached <= attempts[chosen].reached
  {
    forall j | 0 <= j < |tried|
      ensures !attempts[j].connects && !Reachable(tried[j], entry.id, success.id)
    {
      DoesNotConnect(screens, order, roles, canonical, entry, success, inferences[j], tried[j], attempts[j]);
    }
    hide Flow, ResolvedFrom, SumsUp, Survives, Reachable;
  }

  lemma DoesNotConnect(screens: seq<ScreenView>, order: map<string, nat>, roles: Roles, canonical: map<string, string>,
                       entry: ScreenView, success: ScreenView, inferred: seq<Inferred>, ts: seq<Transition>, a: Attempt)
    requires Flow(screens, order, roles, canonical, entry, success) && entry != success
    requires !Survives(canonical, entry) || !Survives(canonical, success) || entry.elements == []
    requires ResolvedFrom(screens, canonical, inferred, ts) && SumsUp(screens, ts, entry.screenKey, Some(success.screenKey), a)
    ensures !a.connects && !Reachable(ts, entry.id, success.id)
  {
    hide Root, ResolvedFrom, Reachable;
    KeyedIs(screens, entry);
    KeyedIs(screens, success);
    if Reachable(ts, entry.id, success.id) {
      ConnectedMeans(screens, order, roles, canonical, entry, success, inferred, ts);
    }
  }

  // ---- a success screen uploaded twice ----

  const START := ScreenView(0, "start", [ElementView(0, "pay", "button", None, true)])
  const PAID := ScreenView(1, "paid", [])
  const THANKS := ScreenView(2, "thanks", [])
  const UPLOADS := [START, PAID, THANKS]

  const CLASSIFIED := [Reported("start", "entry", None), Reported("paid", "success", None),
                       Reported("thanks", "success", Some("paid"))]

  lemma UploadOrder()
    ensures KeyOrder(UPLOADS) == map["start" := 0, "paid" := 1, "thanks" := 2]
  {
    assert "start"[0] == 's' && "paid"[0] == 'p' && "thanks"[0] == 't';
    assert UPLOADS[..2] == [START, PAID] && [START, PAID][..1] == [START] && [START][..0] == [];
    assert KeyOrder([START]) == map["start" := 0];
    assert KeyOrder([START, PAID]) == map["start" := 0, "paid" := 1];
  }

  lemma TwinReports(order: map<string, nat>)
    requires order == map["start" := 0, "paid" := 1, "thanks" := 2]
    ensures Reports(order, CLASSIFIED) ==
            map["start" := Role("entry", None), "paid" := Role("success", None), "thanks" := Role("success", Some("paid"))]
  {
    assert "start"[0] == 's' && "paid"[0] == 'p' && "thanks"[0] == 't';
    var one, two := CLASSIFIED[..1], CLASSIFIED[..2];
    assert CLASSIFIED[..|CLASSIFIED| - 1] == two && two[..|two| - 1] == one && one[..|one| - 1] == [];
    assert Reports(order, one) == map["start" := Role("entry", None)];
    assert Reports(order, two) == map["start" := Role("entry", None), "paid" := Role("success", None)];
  }

  // Two renderings of the success screen, both classified as success and the
  // second as the twin of the first: the second is the success kept and the one
  // collapsed away, so no answer of the model can connect the flow.
  lemma TwinSuccessIsLost(entries: Roles, roles: Roles, canonical: map<string, string>)
    requires var order := KeyOrder(UPLOADS);
             KeptOne(order, Reports(order, CLASSIFIED), "entry", true, entries) && KeptOne(order, entries, "success", false, roles)
    requires Backward(KeyOrder(UPLOADS), roles) && canonical.Keys == roles.Keys
    requires forall k :: k in roles ==> canonical[k] == Root(KeyOrder(UPLOADS), roles, k)
    ensures Claimants(roles, "entry") == {"start"} && Claimants(roles, "success") == {"thanks"}
    ensures !Survives(canonical, THANKS)
    ensures !exists inferred, ts :: ResolvedFrom(UPLOADS, canonical, inferred, ts) && Reachable(ts, START.id, THANKS.id)
  {
    var order := KeyOrder(UPLOADS);
    var reports := Reports(order, CLASSIFIED);
    UploadOrder();
    TwinReports(order);
    hide KeyOrder, Reports;
    TwinClaims(order, reports, entries, roles);
    SuccessSurvivesIff(UPLOADS, CLASSIFIED, entries, roles, canonical, THANKS);
    TwinFlow(order, roles, canonical);
    hide Flow, Root, KeptOne, Survives, ResolvedFrom, Reachable;
    CanConnectIff(UPLOADS, order, roles, canonical, START, THANKS);
  }

  lemma TwinClaimants(reports: Roles)
    requires reports == map["start" := Role("entry", None), "paid" := Role("success", None), "thanks" := Role("success", Some("paid"))]
    ensures Claimants(reports, "entry") == {"start"} && Claimants(reports, "success") == {"paid", "thanks"}
  {
    assert "entry"[0] != "success"[0];
    assert "start"[0] == 's' && "paid"[0] == 'p' && "thanks"[0] == 't';
    assert reports["start"].role == "entry" && reports["paid"].role == "success" && reports["thanks"].role == "success";
  }

  // A set of at most one key, every member of which is `k`, and which is not empty.
  lemma OnlyKey(keys: set<string>, k: string)
    requires keys != {} && forall x :: x in keys ==> x == k
    ensures keys == {k}
  {}

  lemma TwinClaims(order: map<string, nat>, reports: Roles, entries: Roles, roles: Roles)
    requires order == KeyOrder(UPLOADS) && order == map["start" := 0, "paid" := 1, "thanks" := 2]
    requires reports == Reports(order, CLASSIFIED)
    requires reports == map["start" := Role("entry", None), "paid" := Role("success", None), "thanks" := Role("success", Some("paid"))]
    requires KeptOne(order, reports, "entry", true, entries) && KeptOne(order, entries, "success", false, roles)
    ensures Claimants(roles, "entry") == {"start"} && Claimants(roles, "success") == {"thanks"}
  {
    RolesUnique(UPLOADS, CLASSIFIED, entries, roles);
    TwinClaimants(reports);
    hide KeptOne, KeyOrder, Reports, Claimants;
    assert "thanks" in Claimants(reports, "success");
    assert order["paid"] == 1 && order["thanks"] == 2;
    OnlyKey(Claimants(roles, "entry"), "start");
    OnlyKey(Claimants(roles, "success"), "thanks");
  }

  lemma TwinFlow(order: map<string, nat>, roles: Roles, canonical: map<string, string>)
    requires Backward(order, roles) && canonical.Keys == roles.Keys
    requires forall k :: k in roles ==> canonical[k] == Root(order, roles, k)
    ensures Flow(UPLOADS, order, roles, canonical, START, THANKS)
  {
    assert "start"[0] == 's' && "paid"[0] == 'p' && "thanks"[0] == 't';
    assert UPLOADS[0] == START && UPLOADS[2] == THANKS;
    hide Root, Backward;
  }
}
