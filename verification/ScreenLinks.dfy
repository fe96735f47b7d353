/** What the lookups behind the collapsed screen graph find: which screen a key
    stands for, which reported link is kept, which reported edge resolves. */
module ScreenLinks {
  import opened Domain
  import opened ScreenRoles
  import opened ScreenTransitions

  // Screen i is the last one uploaded with its key.
  ghost predicate LastWith(screens: seq<ScreenView>, key: string, i: nat) {
    i < |screens| && screens[i].screenKey == key && forall j :: i < j < |screens| ==> screens[j].screenKey != key
  }

  lemma {:induction false} OrderIsLast(screens: seq<ScreenView>, key: string, i: nat)
    requires LastWith(screens, key, i)
    ensures key in KeyOrder(screens) && KeyOrder(screens)[key] == i
  {
    if i < |screens| - 1 { OrderIsLast(screens[..|screens| - 1], key, i); }
  }

  lemma {:induction false} KeyedIsLast(screens: seq<ScreenView>, key: string, i: nat)
    requires LastWith(screens, key, i)
    ensures LastKeyed(screens, key) == Some(screens[i])
  {
    if i < |screens| - 1 { KeyedIsLast(screens[..|screens| - 1], key, i); }
  }

  lemma {:induction false} SomeLast(screens: seq<ScreenView>, key: string, at: nat) returns (i: nat)
    requires at < |screens| && screens[at].screenKey == key
    ensures LastWith(screens, key, i)
    decreases |screens| - at
  {
    if j :| at < j < |screens| && screens[j].screenKey == key {
      i := SomeLast(screens, key, j);
    } else {
      i := at;
    }
  }

  // Screen i is the last uploaded with its key among those that have an element of
  // the name, and element j the last of that name on it.
  ghost predicate LastNamedOn(screens: seq<ScreenView>, key: string, name: string, i: nat, j: nat) {
    && i < |screens| && screens[i].screenKey == key && j < |screens[i].elements| && screens[i].elements[j].elementKey == name
    && (forall l :: j < l < |screens[i].elements| ==> screens[i].elements[l].elementKey != name)
    && (forall l :: i < l < |screens| && screens[l].screenKey == key ==> forall e :: e in screens[l].elements ==> e.elementKey != name)
  }

  lemma {:induction false} NamedIsLast(elements: seq<ElementView>, name: string, j: nat)
    requires j < |elements| && elements[j].elementKey == name && forall l :: j < l < |elements| ==> elements[l].elementKey != name
    ensures LastNamed(elements, name) == Some(elements[j])
  {
    if j < |elements| - 1 { NamedIsLast(elements[..|elements| - 1], name, j); }
  }

  lemma {:induction false} TriggerIsLast(screens: seq<ScreenView>, key: string, name: string, i: nat, j: nat)
    requires LastNamedOn(screens, key, name, i, j)
    ensures TriggerOn(screens, key, name) == Some(screens[i].elements[j])
  {
    if i < |screens| - 1 {
      var last := screens[|screens| - 1];
      assert last.screenKey == key ==> forall e :: e in last.elements ==> e.elementKey != name;
      TriggerIsLast(screens[..|screens| - 1], key, name, i, j);
    } else {
      NamedIsLast(screens[i].elements, name, j);
    }
  }

  // A reported edge is stored as a transition exactly when both collapsed keys name
  // screens, the last ones of which differ, and some screen of the first key has an
  // element of the reported name.
  lemma ResolvesIff(screens: seq<ScreenView>, canonical: map<string, string>, edge: Inferred)
    ensures var from, to := Canonical(canonical, edge.fromKey), Canonical(canonical, edge.toKey);
            Resolve(screens, canonical, edge).Some? <==>
            && (exists sc, e :: sc in screens && sc.screenKey == from && e in sc.elements && e.elementKey == edge.elementKey)
            && (exists a: nat, b: nat :: LastWith(screens, from, a) && LastWith(screens, to, b) && screens[a].id != screens[b].id)
  {
    var from, to := Canonical(canonical, edge.fromKey), Canonical(canonical, edge.toKey);
    forall a: nat, key | LastWith(screens, key, a)
      ensures LastKeyed(screens, key) == Some(screens[a])
    {
      KeyedIsLast(screens, key, a);
    }
    hide TriggerOn, LastWith;
    if Resolve(screens, canonical, edge).Some? {
      hide LastKeyed;
      var p :| 0 <= p < |screens| && screens[p].screenKey == from;
      var q :| 0 <= q < |screens| && screens[q].screenKey == to;
      var a := SomeLast(screens, from, p);
      var b := SomeLast(screens, to, q);
    }
  }

  // Report j is the last one about its screen.
  ghost predicate LastReport(inferred: seq<Reported>, key: string, j: nat) {
    j < |inferred| && inferred[j].screenKey == key && forall l :: j < l < |inferred| ==> inferred[l].screenKey != key
  }

  lemma {:induction false} ReportsAre(order: map<string, nat>, inferred: seq<Reported>, key: string, j: nat)
    requires LastReport(inferred, key, j) && key in order
    ensures key in Reports(order, inferred)
            && Reports(order, inferred)[key] == Role(inferred[j].role, Admitted(order, inferred[j]))
  {
    hide Admitted;
    if j < |inferred| - 1 { ReportsAre(order, inferred[..|inferred| - 1], key, j); }
  }

  // The last report about a screen counts. Its role is taken as it is, and its link
  // exactly when it names a screen uploaded strictly earlier.
  lemma LinkKeptIff(screens: seq<ScreenView>, inferred: seq<Reported>, key: string, j: nat, i: nat)
    requires LastReport(inferred, key, j) && LastWith(screens, key, i)
    ensures var roles := Reports(KeyOrder(screens), inferred);
            && key in roles && roles[key].role == inferred[j].role
            && (forall target :: roles[key].duplicateOf == Some(target) <==>
                  inferred[j].duplicateOf == Some(target) && exists a: nat :: a < i && LastWith(screens, target, a))
  {
    var order := KeyOrder(screens);
    OrderIsLast(screens, key, i);
    ReportsAre(order, inferred, key, j);
    hide KeyOrder, Reports, LastWith, LastReport;
    forall target
      ensures (target in order && order[target] < i) <==> exists a: nat :: a < i && LastWith(screens, target, a)
    {
      EarlierIff(screens, target, i);
    }
  }

  lemma EarlierIff(screens: seq<ScreenView>, target: string, i: nat)
    ensures (target in KeyOrder(screens) && KeyOrder(screens)[target] < i) <==> exists a: nat :: a < i && LastWith(screens, target, a)
  {
    var order := KeyOrder(screens);
    hide KeyOrder, LastWith;
    if target in order {
      var a := SomeLast(screens, target, order[target]);
      OrderIsLast(screens, target, a);
    }
    if a: nat :| a < i && LastWith(screens, target, a) { OrderIsLast(screens, target, a); }
  }

  // Collapsing follows a link to what its target collapses onto, and leaves a
  // screen without a link, or with an empty one, as it is.
  lemma RootFollows(order: map<string, nat>, roles: Roles, key: string)
    requires Backward(order, roles) && key in order
    ensures if key in roles && roles[key].duplicateOf.Some? && roles[key].duplicateOf.value != ""
            then roles[key].duplicateOf.value in order && Root(order, roles, key) == Root(order, roles, roles[key].duplicateOf.value)
            else Root(order, roles, key) == key
  {}

  // The screen that marks success is the first one with the key.
  lemma SuccessIs(screens: seq<ScreenView>, key: string, i: nat)
    requires i < |screens| && screens[i].screenKey == key && forall j :: 0 <= j < i ==> screens[j].screenKey != key
    ensures SuccessId(screens, Some(key)) == Some(screens[i].id) && SuccessId(screens, None) == None
  {
    FirstKeyedIsFirst(screens, key, i);
    hide FirstKeyed;
  }

  // Where several screens claim a role that only one can have, every screen keeps
  // its link, those that do not claim it keep their role, and a claimant that
  // loses it becomes a step.
  lemma LosersBecomeSteps(order: map<string, nat>, roles: Roles, name: string, earliest: bool, result: Roles, key: string)
    requires KeptOne(order, roles, name, earliest, result) && name != "step" && key in roles
    ensures key in result && result[key].duplicateOf == roles[key].duplicateOf
    ensures result[key].role == roles[key].role || (roles[key].role == name && result[key].role == "step")
    ensures |Claimants(roles, name)| <= 1 ==> result[key] == roles[key]
    ensures |Claimants(roles, name)| > 1 ==> exists winner :: Claimants(result, name) == {winner}
  {
    KeptSingle(order, roles, name, earliest, result);
    var c := Claimants(roles, name);
    if |c| > 1 {
      var w :| w in Claimants(result, name);
      assert Claimants(result, name) == {w};
    }
  }
}
