/** Collapsing duplicate screens: validating what the vision model reports and
    following duplicate links to their roots. */
module ScreenRoles {
  import opened Domain

  datatype Reported = Reported(screenKey: string, role: string, duplicateOf: Option<string>)
  datatype Role = Role(role: string, duplicateOf: Option<string>)

  type Roles = map<string, Role>

  // Upload position of each screen key; the last screen with a key counts.
  function KeyOrder(screens: seq<ScreenView>): (order: map<string, nat>)
    ensures forall k :: k in order ==> order[k] < |screens| && screens[order[k]].screenKey == k
    ensures forall i :: 0 <= i < |screens| ==> screens[i].screenKey in order
  {
    if screens == [] then map[]
    else KeyOrder(screens[..|screens| - 1])[screens[|screens| - 1].screenKey := |screens| - 1]
  }

  // A reported link is kept only when it names an earlier screen.
  function Admitted(order: map<string, nat>, r: Reported): Option<string>
    requires r.screenKey in order
  {
    if r.duplicateOf.Some? && r.duplicateOf.value in order && order[r.duplicateOf.value] < order[r.screenKey]
    then r.duplicateOf else None
  }

  // The last report about each known screen.
  function Reports(order: map<string, nat>, inferred: seq<Reported>): Roles {
    if inferred == [] then map[]
    else
      var roles, r := Reports(order, inferred[..|inferred| - 1]), inferred[|inferred| - 1];
      if r.screenKey in order then roles[r.screenKey := Role(r.role, Admitted(order, r))] else roles
  }

  // Every link points strictly backwards in upload order.
  ghost predicate Backward(order: map<string, nat>, roles: Roles) {
    forall k :: k in roles ==>
                  (k in order
                   && (roles[k].duplicateOf.Some? ==>
                         roles[k].duplicateOf.value in order && order[roles[k].duplicateOf.value] < order[k]))
  }

  lemma {:induction false} ReportsBackward(order: map<string, nat>, inferred: seq<Reported>)
    ensures Backward(order, Reports(order, inferred))
  {
    if inferred != [] { ReportsBackward(order, inferred[..|inferred| - 1]); }
  }

  function Claimants(roles: Roles, name: string): set<string> {
    set k | k in roles && roles[k].role == name
  }

  // `winner` comes first (or last) in upload order among the claimants.
  ghost predicate Wins(order: map<string, nat>, claimants: set<string>, winner: string, earliest: bool) {
    winner in claimants && claimants <= order.Keys &&
    forall k :: k in claimants ==> if earliest then order[winner] <= order[k] else order[k] <= order[winner]
  }

  function Demoted(roles: Roles, losers: set<string>): Roles {
    map k | k in roles :: if k in losers then Role("step", roles[k].duplicateOf) else roles[k]
  }

  // What keeping a single claimant of a role means.
  ghost predicate KeptOne(order: map<string, nat>, roles: Roles, name: string, earliest: bool, result: Roles) {
    var claimants := Claimants(roles, name);
    if |claimants| <= 1 then result == roles
    else exists w :: Wins(order, claimants, w, earliest) && result == Demoted(roles, claimants - {w})
  }

  method Winner(order: map<string, nat>, claimants: set<string>, earliest: bool) returns (winner: string)
    requires claimants != {} && claimants <= order.Keys
    ensures Wins(order, claimants, winner, earliest)
  {
    winner :| winner in claimants;
    var rest := claimants - {winner};
    while rest != {}
      invariant rest <= claimants && winner in claimants
      invariant Wins(order, claimants - rest, winner, earliest)
      decreases rest
    {
      var k :| k in rest;
      if (earliest && order[k] < order[winner]) || (!earliest && order[winner] < order[k]) { winner := k; }
      rest := rest - {k};
    }
  }

  method KeepOne(order: map<string, nat>, roles: Roles, name: string, earliest: bool) returns (result: Roles)
    requires roles.Keys <= order.Keys
    ensures KeptOne(order, roles, name, earliest, result)
  {
    result := roles;
    var claimants := Claimants(roles, name);
    if |claimants| > 1 {
      var winner := Winner(order, claimants, earliest);
      var losers := claimants - {winner};
      var rest := losers;
      while rest != {}
        invariant rest <= losers
        invariant result == Demoted(roles, losers - rest)
        decreases rest
      {
        var k :| k in rest;
        result := result[k := Role("step", result[k].duplicateOf)];
        rest := rest - {k};
      }
      assert losers - rest == losers;
    }
  }

  method ResolveScreenRoles(screens: seq<ScreenView>, inferred: seq<Reported>) returns (roles: Roles)
    ensures exists entries :: KeptOne(KeyOrder(screens), Reports(KeyOrder(screens), inferred), "entry", true, entries)
                              && KeptOne(KeyOrder(screens), entries, "success", false, roles)
    ensures Backward(KeyOrder(screens), roles)
  {
    var order := KeyOrder(screens);
    roles := map[];
    for i := 0 to |inferred|
      invariant roles == Reports(order, inferred[..i])
    {
      var r := inferred[i];
      assert inferred[..i + 1][..i] == inferred[..i];
      if r.screenKey in order {
        roles := roles[r.screenKey := Role(r.role, Admitted(order, r))];
      }
    }
    assert inferred[..|inferred|] == inferred;
    ReportsBackward(order, inferred);
    var reports := roles;
    roles := KeepOne(order, reports, "entry", true);
    KeptBackward(order, reports, "entry", true, roles);
    var entries := roles;
    roles := KeepOne(order, entries, "success", false);
    KeptBackward(order, entries, "success", false, roles);
  }

  lemma KeptBackward(order: map<string, nat>, roles: Roles, name: string, earliest: bool, result: Roles)
    requires Backward(order, roles) && KeptOne(order, roles, name, earliest, result)
    ensures Backward(order, result) && result.Keys == roles.Keys
    ensures forall k :: k in roles ==> result[k].duplicateOf == roles[k].duplicateOf
  {}

  lemma KeptSingle(order: map<string, nat>, roles: Roles, name: string, earliest: bool, result: Roles)
    requires KeptOne(order, roles, name, earliest, result) && name != "step"
    ensures forall j, k :: j in Claimants(result, name) && k in Claimants(result, name) ==> j == k
    ensures Claimants(result, name) <= Claimants(roles, name)
    ensures forall other :: other != "step" && other != name ==> Claimants(result, other) == Claimants(roles, other)
    ensures Claimants(roles, name) != {} ==>
              exists w :: w in Claimants(result, name) && (|Claimants(roles, name)| > 1 ==> Wins(order, Claimants(roles, name), w, earliest))
  {
    var c := Claimants(roles, name);
    if |c| <= 1 {
      forall j, k | j in c && k in c
        ensures j == k
      {
        assert |c - {j}| == |c| - 1;
        assert k !in c - {j};
      }
    } else {
      var w :| Wins(order, c, w, earliest) && result == Demoted(roles, c - {w});
      assert w in Claimants(result, name);
    }
  }

  // After resolving, one screen is the entry if any was claimed, and one the
  // success, and no more; among several claimed entries the earliest upload stays, among
  // several claimed successes the latest.
  lemma RolesUnique(screens: seq<ScreenView>, inferred: seq<Reported>, entries: Roles, roles: Roles)
    requires var order := KeyOrder(screens);
             KeptOne(order, Reports(order, inferred), "entry", true, entries) && KeptOne(order, entries, "success", false, roles)
    ensures forall j, k :: j in Claimants(roles, "entry") && k in Claimants(roles, "entry") ==> j == k
    ensures forall j, k :: j in Claimants(roles, "success") && k in Claimants(roles, "success") ==> j == k
    ensures var order, reports := KeyOrder(screens), Reports(KeyOrder(screens), inferred);
            && (forall k :: k in Claimants(roles, "entry") ==> Wins(order, Claimants(reports, "entry"), k, true))
            && (forall k :: k in Claimants(roles, "success") ==> Wins(order, Claimants(reports, "success"), k, false))
            && (Claimants(roles, "entry") == {} <==> Claimants(reports, "entry") == {})
            && (Claimants(roles, "success") == {} <==> Claimants(reports, "success") == {})
  {
    var order := KeyOrder(screens);
    var reports := Reports(order, inferred);
    KeptSingle(order, reports, "entry", true, entries);
    KeptSingle(order, entries, "success", false, roles);
    ReportsBackward(order, inferred);
    KeptBackward(order, reports, "entry", true, entries);
    SoleWins(order, reports, "entry", true, entries);
    SoleWins(order, entries, "success", false, roles);
  }

  lemma SoleWins(order: map<string, nat>, roles: Roles, name: string, earliest: bool, result: Roles)
    requires KeptOne(order, roles, name, earliest, result) && name != "step" && roles.Keys <= order.Keys
    ensures forall k :: k in Claimants(result, name) ==> Wins(order, Claimants(roles, name), k, earliest)
  {
    KeptSingle(order, roles, name, earliest, result);
  }

  // ---- duplicate chains ----

  // A link is followed only when its text is not empty.
  function Parent(roles: Roles, key: string): Option<string> {
    if key in roles && roles[key].duplicateOf.Some? && roles[key].duplicateOf.value != "" then roles[key].duplicateOf
    else None
  }

  function Root(order: map<string, nat>, roles: Roles, key: string): (root: string)
    requires Backward(order, roles) && key in order
    ensures root in order && order[root] <= order[key]
    ensures Parent(roles, root).None?
    decreases order[key]
  {
    if Parent(roles, key).None? then key else Root(order, roles, Parent(roles, key).value)
  }

  // Follows each chain to its root. The `seen` guard never stops the loop: the
  // walk ends only where there is no link left to follow.
  method CanonicalScreenKeys(ghost order: map<string, nat>, roles: Roles) returns (canonical: map<string, string>)
    requires Backward(order, roles)
    ensures canonical.Keys == roles.Keys
    ensures forall k :: k in roles ==> canonical[k] == Root(order, roles, k)
  {
    canonical := map[];
    var keys := roles.Keys;
    while keys != {}
      invariant keys <= roles.Keys && canonical.Keys == roles.Keys - keys
      invariant forall k :: k in canonical ==> canonical[k] == Root(order, roles, k)
      decreases keys
    {
      var key :| key in keys;
      var seen := {key};
      var current := key;
      while Parent(roles, current).Some? && Parent(roles, current).value !in seen
        invariant current in order && seen <= order.Keys
        invariant forall x :: x in seen ==> order[current] <= order[x]
        invariant Root(order, roles, current) == Root(order, roles, key)
        decreases order[current]
      {
        current := Parent(roles, current).value;
        seen := seen + {current};
      }
      assert Parent(roles, current).None?;
      canonical := canonical[key := current];
      keys := keys - {key};
    }
  }

  function Canonical(canonical: map<string, string>, key: string): string {
    if key in canonical then canonical[key] else key
  }

  // Collapsing is idempotent: what a key collapses onto is never collapsed away.
  lemma CanonicalIsFixed(order: map<string, nat>, roles: Roles, canonical: map<string, string>, key: string)
    requires Backward(order, roles) && canonical.Keys == roles.Keys
    requires forall k :: k in roles ==> canonical[k] == Root(order, roles, k)
    ensures Canonical(canonical, Canonical(canonical, key)) == Canonical(canonical, key)
    ensures key in order ==> Canonical(canonical, key) in order && order[Canonical(canonical, key)] <= order[key]
  {
    if key in roles { assert Root(order, roles, canonical[key]) == canonical[key]; }
  }
}
