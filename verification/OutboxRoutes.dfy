/**
 * An outbox's routes: records keep a route's name instead of their event and config, and a relay
 * finds those again by it.
 */
module OutboxRoutes {
  import opened Options

  type Route = string

  datatype Event = Event(id: nat, name: string)

  /** A routing config: which object it is, and what it is equal to. */
  datatype Config = Config(id: nat, value: nat)

  datatype Binding = Binding(event: Event, config: Config)

  type Routes = map<Route, Binding>

  predicate SameConfig(a: Config, b: Config) {
    a.id == b.id || a.value == b.value
  }

  /** Whether a name stands for an event and config: for that very event, and an equal config. */
  predicate StandsFor(routes: Routes, route: Route, event: Event, config: Config) {
    route in routes && routes[route].event == event && SameConfig(routes[route].config, config)
  }

  /** A use of the outbox: a binding or an emit, which may name its route. */
  datatype Use = Use(event: Event, route: Option<Route>, config: Config)

  /** The route's own name, or else its event's. */
  function RouteOf(u: Use): Route {
    if u.route.Some? && u.route.value != "" then u.route.value else u.event.name
  }

  /** The routes after a use: a name that is known is not changed. */
  function After(routes: Routes, u: Use): Routes {
    if RouteOf(u) in routes then routes else routes[RouteOf(u) := Binding(u.event, u.config)]
  }

  /** The routes after uses of the outbox in turn. */
  function AfterAll(routes: Routes, uses: seq<Use>): Routes
    decreases |uses|
  {
    if uses == [] then routes else AfterAll(After(routes, uses[0]), uses[1..])
  }

  /** What a use records its route as, unless another binding has it. */
  function Registered(routes: Routes, u: Use): Option<Route> {
    if StandsFor(After(routes, u), RouteOf(u), u.event, u.config) then Some(RouteOf(u)) else None
  }

  class OutboxProducer {
    var routes: Routes

    constructor ()
      ensures routes == map[]
    {
      routes := map[];
    }

    /** Record the route's event and config, refusing a clash, which changes nothing. */
    method Register(u: Use) returns (route: Option<Route>)
      modifies this
      ensures routes == After(old(routes), u) && route == Registered(old(routes), u)
      ensures route.None? ==> routes == old(routes)
      ensures route.Some? ==>
                && (u.route.Some? && u.route.value != "" ==> route == u.route)
                && (u.route.None? || u.route == Some("") ==> route == Some(u.event.name))
                && route.value in routes
                && (route.value !in old(routes) ==> routes[route.value] == Binding(u.event, u.config))
      ensures route.Some? <==> RouteOf(u) !in old(routes) || StandsFor(old(routes), RouteOf(u), u.event, u.config)
    {
      var name := if u.route.Some? && u.route.value != "" then u.route.value else u.event.name;
      if name !in routes {
        routes := routes[name := Binding(u.event, u.config)];
      }
      var known := routes[name];
      if known.event != u.event || (known.config.id != u.config.id && known.config.value != u.config.value) {
        return None;
      }
      return Some(name);
    }
  }

  /** A use is recorded under the route that it names, or else under its event's name. */
  lemma NamedAs(routes: Routes, u: Use)
    requires Registered(routes, u).Some?
    ensures Registered(routes, u) == if u.route.None? || u.route.value == "" then Some(u.event.name) else u.route
    ensures Registered(routes, u).value in After(routes, u)
  {
  }

  lemma {:induction false} KnownStays(routes: Routes, uses: seq<Use>, route: Route)
    requires route in routes
    ensures route in AfterAll(routes, uses) && AfterAll(routes, uses)[route] == routes[route]
    decreases |uses|
  {
    if uses != [] {
      KnownStays(After(routes, uses[0]), uses[1..], route);
    }
  }

  /**
   * Whatever else is bound and emitted before or after, a record is relayed as it was emitted: its
   * route is known, for its own event and a config equal to its own.
   */
  lemma {:induction false} RelayedAsEmitted(before: seq<Use>, u: Use, after: seq<Use>)
    requires Registered(AfterAll(map[], before), u).Some?
    ensures StandsFor(AfterAll(map[], before + [u] + after), RouteOf(u), u.event, u.config)
  {
    var routes := AfterAll(map[], before);
    AfterTwice(map[], before, [u] + after);
    assert ([u] + after)[1..] == after;
    KnownStays(After(routes, u), after, RouteOf(u));
    assert before + [u] + after == before + ([u] + after);
  }

  lemma {:induction false} AfterTwice(routes: Routes, a: seq<Use>, b: seq<Use>)
    ensures AfterAll(routes, a + b) == AfterAll(AfterAll(routes, a), b)
    decreases |a|
  {
    if a == [] {
      assert a + b == b;
    } else {
      AfterTwice(After(routes, a[0]), a[1..], b);
      assert (a + b)[0] == a[0] && (a + b)[1..] == a[1..] + b;
    }
  }
}
