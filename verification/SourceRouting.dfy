/** Source routing for one device over the network manager
    (pkg/csi_driver/network.go: AddSourceRouteForDevice). */
module SourceRouting {
  import opened GoStrings
  import opened RouteTable

  function ForDevice(routes: seq<Route>, device: string): (r: seq<Route>)
    ensures forall x :: x in r <==> x in routes && x.device == device
  {
    if routes == [] then []
    else
      var init := ForDevice(routes[..|routes| - 1], device);
      var x := routes[|routes| - 1];
      assert routes == routes[..|routes| - 1] + [x];
      if x.device == device then init + [x] else init
  }

  predicate Complete(r: Route) {
    r.source != "" && r.gateway != ""
  }

  /** `k` is the first of the listed routes with both a source and a gateway. */
  ghost predicate FirstComplete(listed: seq<Route>, k: int) {
    0 <= k < |listed| && Complete(listed[k]) && forall j :: 0 <= j < k ==> !Complete(listed[j])
  }

  ghost predicate Chosen(routes: seq<Route>, device: string, source: string, gateway: string) {
    exists k :: FirstComplete(ForDevice(routes, device), k)
                && ForDevice(routes, device)[k].source == source && ForDevice(routes, device)[k].gateway == gateway
  }

  predicate HasRule(rules: seq<Rule>, source: string, table: int) {
    Rule(source + "/32", table) in rules
  }

  predicate HasRoute(routes: seq<Route>, device: string, gateway: string, table: int) {
    exists i :: 0 <= i < |routes| && routes[i].device == device && routes[i].gateway == gateway && routes[i].table == table
  }

  /** The device's traffic from `source` is routed: table line, rule and route are in place. */
  ghost predicate Settled(text: string, rules: seq<Rule>, routes: seq<Route>, device: string, source: string) {
    exists gateway, id ::
      && Chosen(routes, device, source, gateway)
      && Lookup(Parse(text), TableName(device)) == Some(id)
      && HasRule(rules, source, id) && HasRoute(routes, device, gateway, id)
  }

  lemma ChosenUnique(routes: seq<Route>, device: string, s1: string, g1: string, s2: string, g2: string)
    requires Chosen(routes, device, s1, g1) && Chosen(routes, device, s2, g2)
    ensures s1 == s2 && g1 == g2
  {
    var listed := ForDevice(routes, device);
    var k1 :| FirstComplete(listed, k1) && listed[k1].source == s1 && listed[k1].gateway == g1;
    var k2 :| FirstComplete(listed, k2) && listed[k2].source == s2 && listed[k2].gateway == g2;
  }

  /** A route appended later does not change the choice. */
  lemma ChosenStays(routes: seq<Route>, x: Route, device: string, source: string, gateway: string)
    requires Chosen(routes, device, source, gateway)
    ensures Chosen(routes + [x], device, source, gateway)
  {
    var listed := ForDevice(routes, device);
    assert (routes + [x])[..|routes + [x]| - 1] == routes;
    var k :| FirstComplete(listed, k) && listed[k].source == source && listed[k].gateway == gateway;
    assert FirstComplete(ForDevice(routes + [x], device), k);
  }

  lemma NoneChosen(routes: seq<Route>, device: string)
    requires forall k :: 0 <= k < |ForDevice(routes, device)| ==> !Complete(ForDevice(routes, device)[k])
    ensures forall x :: x in routes && x.device == device ==> !Complete(x)
    ensures forall s, g :: !Chosen(routes, device, s, g)
  {
    forall x | x in routes && x.device == device
      ensures !Complete(x)
    {
      assert x in ForDevice(routes, device);
    }
  }

  method ChooseRoute(listed: seq<Route>) returns (source: string, gateway: string)
    ensures source == "" || gateway == "" ==> forall k :: 0 <= k < |listed| ==> !Complete(listed[k])
    ensures source != "" && gateway != "" ==>
              exists k :: FirstComplete(listed, k) && listed[k].source == source && listed[k].gateway == gateway
  {
    source, gateway := "", "";
    var i := 0;
    while i < |listed|
      invariant 0 <= i <= |listed|
      invariant forall k :: 0 <= k < i ==> !Complete(listed[k])
      invariant source == "" || gateway == ""
    {
      source, gateway := listed[i].source, listed[i].gateway;
      if source != "" && gateway != "" {
        assert FirstComplete(listed, i);
        break;
      }
      i := i + 1;
    }
  }

  method FindRule(rules: seq<Rule>, source: string, table: int) returns (found: bool)
    ensures found <==> HasRule(rules, source, table)
  {
    var i := 0;
    while i < |rules|
      invariant 0 <= i <= |rules|
      invariant forall k :: 0 <= k < i ==> rules[k] != Rule(source + "/32", table)
    {
      if rules[i].source == source + "/32" && rules[i].table == table {
        return true;
      }
      i := i + 1;
    }
    return false;
  }

  method FindRoute(routes: seq<Route>, device: string, gateway: string, table: int) returns (found: bool)
    ensures found <==> HasRoute(routes, device, gateway, table)
  {
    var i := 0;
    while i < |routes|
      invariant 0 <= i <= |routes|
      invariant forall k :: 0 <= k < i ==> !(routes[k].device == device && routes[k].gateway == gateway && routes[k].table == table)
    {
      if routes[i].table == table && routes[i].device == device && routes[i].gateway == gateway {
        return true;
      }
      i := i + 1;
    }
    return false;
  }

  /** What a call may add: one table line, one rule and one route, each at the end. */
  ghost predicate OnlyAdds(text: string, text': string, rules: seq<Rule>, rules': seq<Rule>, routes: seq<Route>, routes': seq<Route>) {
    && text <= text'
    && (rules' == rules || (|rules'| == |rules| + 1 && rules < rules'))
    && (routes' == routes || (|routes'| == |routes| + 1 && routes < routes'))
  }

  /** A settled device gives the same answers again and finds everything in place, whatever
      operation fails. */
  lemma SettledAnswers(text: string, text': string, rules: seq<Rule>, routes: seq<Route>, device: string, src: string,
                       source: string, gateway: string, tables: set<int>, faults: set<Op>, table: Option<int>)
    requires Settled(text, rules, routes, device, src)
    requires Chosen(routes, device, source, gateway) && TableStep(text, text', device, tables, faults, table)
    ensures src == source && text' == text && (table.None? ==> GetRouteTable in faults)
    ensures table.Some? ==> HasRule(rules, source, table.value) && HasRoute(routes, device, gateway, table.value)
  {
    hide Chosen, HasRule, HasRoute, Lookup, Parse, TableName;
    var g, id :| Chosen(routes, device, src, g) && Lookup(Parse(text), TableName(device)) == Some(id)
                 && HasRule(rules, src, id) && HasRoute(routes, device, g, id);
    ChosenUnique(routes, device, source, gateway, src, g);
  }

  lemma NotSettled(text: string, rules: seq<Rule>, routes: seq<Route>, device: string)
    requires forall s, g :: !Chosen(routes, device, s, g)
    ensures forall s :: !Settled(text, rules, routes, device, s)
  {
  }

  lemma NowSettled(text: string, text': string, rules: seq<Rule>, routes: seq<Route>, device: string,
                   source: string, gateway: string, tables: set<int>, faults: set<Op>, id: int)
    requires NoSpace(device) && TableStep(text, text', device, tables, faults, Some(id))
    requires Chosen(routes, device, source, gateway) && HasRule(rules, source, id) && HasRoute(routes, device, gateway, id)
    ensures Settled(text', rules, routes, device, source)
  {
    StepAnswers(text, text', Alloc(device, tables, faults, Some(id)));
  }

  function WithRule(rules: seq<Rule>, source: string, id: int): seq<Rule> {
    if HasRule(rules, source, id) then rules else rules + [Rule(source + "/32", id)]
  }

  function WithRoute(routes: seq<Route>, device: string, gateway: string, id: int): seq<Route> {
    if HasRoute(routes, device, gateway, id) then routes else routes + [Route(device, gateway, "", id)]
  }

  /** The first complete route's rule and route are in the device's table, and nothing else is new. */
  ghost predicate Routed(text: string, text': string, rules: seq<Rule>, rules': seq<Rule>, routes: seq<Route>, routes': seq<Route>,
                         device: string, tables: set<int>, faults: set<Op>, source: string) {
    exists gateway, id ::
      && Chosen(routes, device, source, gateway)
      && TableStep(text, text', device, tables, faults, Some(id))
      && rules' == WithRule(rules, source, id) && routes' == WithRoute(routes, device, gateway, id)
  }

  /** What follows once route and table are known: each step adds what is missing, and the first
      failing one ends the call with what was added before it. */
  predicate Follows(rules: seq<Rule>, rules': seq<Rule>, routes: seq<Route>, routes': seq<Route>, device: string, faults: set<Op>,
                    source: string, gateway: string, table: Option<int>, r: Option<string>) {
    if table.None? || ListRulesForTable in faults || (!HasRule(rules, source, table.value) && AddRule in faults) then
      r.None? && rules' == rules && routes' == routes
    else if ListRoutesForTable in faults || (!HasRoute(routes, device, gateway, table.value) && AddRoute in faults) then
      r.None? && rules' == WithRule(rules, source, table.value) && routes' == routes
    else
      r == Some(source) && rules' == WithRule(rules, source, table.value) && routes' == WithRoute(routes, device, gateway, table.value)
  }

  ghost predicate Attempt(text: string, text': string, rules: seq<Rule>, rules': seq<Rule>, routes: seq<Route>, routes': seq<Route>,
                          device: string, tables: set<int>, faults: set<Op>, r: Option<string>) {
    if ListRoutesForDevice in faults || (forall x :: x in routes && x.device == device ==> !Complete(x)) then
      r.None? && text' == text && rules' == rules && routes' == routes
    else
      exists source, gateway, table ::
        && Chosen(routes, device, source, gateway) && TableStep(text, text', device, tables, faults, table)
        && Follows(rules, rules', routes, routes', device, faults, source, gateway, table, r)
  }

  lemma AttemptIs(text: string, text': string, rules: seq<Rule>, rules': seq<Rule>, routes: seq<Route>, routes': seq<Route>,
                  device: string, tables: set<int>, faults: set<Op>, source: string, gateway: string, table: Option<int>, r: Option<string>)
    requires ListRoutesForDevice !in faults && Chosen(routes, device, source, gateway)
    requires TableStep(text, text', device, tables, faults, table)
    requires Follows(rules, rules', routes, routes', device, faults, source, gateway, table, r)
    ensures Attempt(text, text', rules, rules', routes, routes', device, tables, faults, r)
  {
    var k :| FirstComplete(ForDevice(routes, device), k);
    assert ForDevice(routes, device)[k] in routes;
    hide TableStep, Follows;
  }

  lemma NoAttempt(text: string, rules: seq<Rule>, routes: seq<Route>, device: string, tables: set<int>, faults: set<Op>)
    requires ListRoutesForDevice in faults || forall x :: x in routes && x.device == device ==> !Complete(x)
    ensures Attempt(text, text, rules, rules, routes, routes, device, tables, faults, None)
  {
    hide TableStep, Follows, Chosen;
  }

  lemma FollowsFails(rules: seq<Rule>, routes: seq<Route>, device: string, faults: set<Op>, source: string, gateway: string, table: Option<int>)
    requires table.None? || ListRulesForTable in faults || (!HasRule(rules, source, table.value) && AddRule in faults)
    ensures Follows(rules, rules, routes, routes, device, faults, source, gateway, table, None)
  {
  }

  lemma FollowsRule(rules: seq<Rule>, routes: seq<Route>, device: string, faults: set<Op>, source: string, gateway: string, id: int)
    requires ListRulesForTable !in faults && (HasRule(rules, source, id) || AddRule !in faults)
    requires ListRoutesForTable in faults || (!HasRoute(routes, device, gateway, id) && AddRoute in faults)
    ensures Follows(rules, WithRule(rules, source, id), routes, routes, device, faults, source, gateway, Some(id), None)
  {
  }

  lemma FollowsAll(rules: seq<Rule>, routes: seq<Route>, device: string, faults: set<Op>, source: string, gateway: string, id: int)
    requires ListRulesForTable !in faults && (HasRule(rules, source, id) || AddRule !in faults)
    requires ListRoutesForTable !in faults && (HasRoute(routes, device, gateway, id) || AddRoute !in faults)
    ensures Follows(rules, WithRule(rules, source, id), routes, WithRoute(routes, device, gateway, id), device, faults, source, gateway, Some(id), Some(source))
  {
  }

  /** On success the first complete route is used, its rule and route are in the device's
      table, and the device is settled; nothing is ever removed; a settled device is left as
      it is. Failure has a cause. */
  method AddSourceRouteForDevice(net: Network, device: string, faults: set<Op>, tables: set<int>) returns (r: Option<string>)
    modifies net
    ensures OnlyAdds(old(net.table), net.table, old(net.rules), net.rules, old(net.routes), net.routes)
    ensures r.Some? ==> Routed(old(net.table), net.table, old(net.rules), net.rules, old(net.routes), net.routes, device, tables, faults, r.value)
    ensures r.Some? && NoSpace(device) ==> Settled(net.table, net.rules, net.routes, device, r.value)
    ensures forall source :: old(Settled(net.table, net.rules, net.routes, device, source)) ==>
              && net.table == old(net.table) && net.rules == old(net.rules) && net.routes == old(net.routes)
              && (faults == {} ==> r == Some(source))
    ensures Attempt(old(net.table), net.table, old(net.rules), net.rules, old(net.routes), net.routes, device, tables, faults, r)
    ensures r.None? ==> faults != {}
                        || (forall x :: x in old(net.routes) && x.device == device ==> !Complete(x))
                        || TableStep(old(net.table), old(net.table), device, tables, {}, None)
  {
    hide *;
    ghost var text, rules, routes := net.table, net.rules, net.routes;
    if ListRoutesForDevice in faults {
      NoAttempt(text, rules, routes, device, tables, faults);
      OnlyAddsSame(text, text, rules, routes);
      return None;
    }
    OnlyAddsSame(text, text, rules, routes);
    var source, gateway := ChooseRoute(ForDevice(net.routes, device));
    if source == "" || gateway == "" {
      NoneChosen(routes, device);
      NotSettled(text, rules, routes, device);
      NoAttempt(text, rules, routes, device, tables, faults);
      return None;
    }
    ChosenIs(routes, device, source, gateway);
    var table := net.GetGcsFuseTableId(device, faults, tables);
    StepAdds(text, net.table, device, tables, faults, table);
    OnlyAddsSame(text, net.table, rules, routes);
    forall src | Settled(text, rules, routes, device, src)
      ensures src == source && net.table == text && (faults == {} ==> table.Some?)
      ensures table.Some? ==> HasRule(rules, source, table.value) && HasRoute(routes, device, gateway, table.value)
    {
      SettledAnswers(text, net.table, rules, routes, device, src, source, gateway, tables, faults, table);
    }
    if table.None? || ListRulesForTable in faults {
      FollowsFails(rules, routes, device, faults, source, gateway, table);
      AttemptIs(text, net.table, rules, rules, routes, routes, device, tables, faults, source, gateway, table, None);
      return None;
    }
    var foundRule := FindRule(net.rules, source, table.value);
    if !foundRule {
      if AddRule in faults {
        FollowsFails(rules, routes, device, faults, source, gateway, table);
        AttemptIs(text, net.table, rules, rules, routes, routes, device, tables, faults, source, gateway, table, None);
        return None;
      }
      net.rules := net.rules + [Rule(source + "/32", table.value)];
      RuleAdded(rules, source, table.value);
    }
    ghost var rules' := net.rules;
    OnlyAddsRule(text, net.table, rules, rules', routes);
    WithRuleIs(rules, source, table.value, foundRule);
    if ListRoutesForTable in faults {
      FollowsRule(rules, routes, device, faults, source, gateway, table.value);
      AttemptIs(text, net.table, rules, rules', routes, routes, device, tables, faults, source, gateway, table, None);
      return None;
    }
    var foundRoute := FindRoute(net.routes, device, gateway, table.value);
    if !foundRoute {
      if AddRoute in faults {
        FollowsRule(rules, routes, device, faults, source, gateway, table.value);
        AttemptIs(text, net.table, rules, rules', routes, routes, device, tables, faults, source, gateway, table, None);
        return None;
      }
      net.routes := net.routes + [Route(device, gateway, "", table.value)];
      RouteAdded(routes, device, source, gateway, table.value);
    }
    OnlyAddsRoute(text, net.table, rules, rules', routes, net.routes);
    FollowsAll(rules, routes, device, faults, source, gateway, table.value);
    WithRouteIs(routes, device, gateway, table.value, foundRoute);
    AttemptIs(text, net.table, rules, rules', routes, net.routes, device, tables, faults, source, gateway, table, Some(source));
    RoutedIs(text, net.table, rules, rules', routes, net.routes, device, tables, faults, source, gateway, table.value);
    if NoSpace(device) {
      NowSettled(text, net.table, rules', net.routes, device, source, gateway, tables, faults, table.value);
    }
    return Some(source);
  }

  lemma ChosenIs(routes: seq<Route>, device: string, source: string, gateway: string)
    requires var listed := ForDevice(routes, device);
             exists k :: FirstComplete(listed, k) && listed[k].source == source && listed[k].gateway == gateway
    ensures Chosen(routes, device, source, gateway)
  {
  }

  lemma StepAdds(text: string, text': string, device: string, tables: set<int>, faults: set<Op>, r: Option<int>)
    requires TableStep(text, text', device, tables, faults, r)
    ensures text <= text' && (r.None? ==> text' == text) && (faults == {} ==> TableStep(text, text', device, tables, {}, r))
  {
    hide Parse, TableName, NewLine, FirstFree, Exhausted;
  }

  lemma OnlyAddsSame(text: string, text': string, rules: seq<Rule>, routes: seq<Route>)
    requires text <= text'
    ensures OnlyAdds(text, text', rules, rules, routes, routes)
  {
  }

  lemma OnlyAddsRule(text: string, text': string, rules: seq<Rule>, rules': seq<Rule>, routes: seq<Route>)
    requires text <= text' && (rules' == rules || exists x :: rules' == rules + [x])
    ensures OnlyAdds(text, text', rules, rules', routes, routes)
  {
  }

  lemma OnlyAddsRoute(text: string, text': string, rules: seq<Rule>, rules': seq<Rule>, routes: seq<Route>, routes': seq<Route>)
    requires OnlyAdds(text, text', rules, rules', routes, routes) && (routes' == routes || exists x :: routes' == routes + [x])
    ensures OnlyAdds(text, text', rules, rules', routes, routes')
  {
  }

  lemma RuleAdded(rules: seq<Rule>, source: string, id: int)
    ensures HasRule(rules + [Rule(source + "/32", id)], source, id)
  {
  }

  lemma RouteAdded(routes: seq<Route>, device: string, source: string, gateway: string, id: int)
    requires Chosen(routes, device, source, gateway)
    ensures var routes' := routes + [Route(device, gateway, "", id)];
            HasRoute(routes', device, gateway, id) && Chosen(routes', device, source, gateway)
  {
    var x := Route(device, gateway, "", id);
    ChosenStays(routes, x, device, source, gateway);
    assert (routes + [x])[|routes|] == x;
  }

  lemma WithRuleIs(rules: seq<Rule>, source: string, id: int, found: bool)
    requires found <==> HasRule(rules, source, id)
    ensures WithRule(rules, source, id) == if found then rules else rules + [Rule(source + "/32", id)]
  {
  }

  lemma WithRouteIs(routes: seq<Route>, device: string, gateway: string, id: int, found: bool)
    requires found <==> HasRoute(routes, device, gateway, id)
    ensures WithRoute(routes, device, gateway, id) == if found then routes else routes + [Route(device, gateway, "", id)]
  {
  }

  lemma RoutedIs(text: string, text': string, rules: seq<Rule>, rules': seq<Rule>, routes: seq<Route>, routes': seq<Route>,
                 device: string, tables: set<int>, faults: set<Op>, source: string, gateway: string, id: int)
    requires Chosen(routes, device, source, gateway) && TableStep(text, text', device, tables, faults, Some(id))
    requires rules' == WithRule(rules, source, id) && routes' == WithRoute(routes, device, gateway, id)
    ensures Routed(text, text', rules, rules', routes, routes', device, tables, faults, source)
  {
    hide Chosen, TableStep, WithRule, WithRoute;
  }
}
