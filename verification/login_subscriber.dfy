/**
 * The subscriber to the module's user-login event: after a local login it
 * points the post-login `destination` of the current request at the relay
 * entry route, unless the login happened on a route where that would loop.
 */
module LoginSubscriber {

  /** Routes on which a login must not enter the relay. */
  const ExcludedRoutes: seq<string> := ["user.reset", "multi_domain_login.login"]

  /** The relay entry route (`domain` of the controller). */
  const EntryRoute := "multi_domain_login.domain"

  const DestinationKey := "destination"

  /** Symfony's default listener priority; listeners with lower priority run later. */
  const DefaultPriority := 0

  datatype EventName = UserLoginEvent

  datatype Listener = Listener(handler: string, priority: int)

  /** `getSubscribedEvents`. */
  function SubscribedEvents(): (r: map<EventName, Listener>)
    ensures UserLoginEvent in r && r[UserLoginEvent].handler == "onUserLogin"
    ensures r[UserLoginEvent].priority == -100 < DefaultPriority
  {
    map[UserLoginEvent := Listener("onUserLogin", -100)]
  }

  /** The request query after `onUserLogin`, given the route the login happened on. */
  function RedirectedQuery(route: string, query: map<string, string>, entryUrl: string): (r: map<string, string>)
    ensures route in ExcludedRoutes ==> r == query
    ensures route !in ExcludedRoutes ==> DestinationKey in r && r[DestinationKey] == entryUrl
    ensures r.Keys <= query.Keys + {DestinationKey}
    ensures forall k :: k in query && k != DestinationKey ==> k in r && r[k] == query[k]
  {
    if route in ExcludedRoutes then query else query[DestinationKey := entryUrl]
  }

  /** Symfony's ParameterBag: the query parameters of a request, changed in place. */
  class ParameterBag {
    var parameters: map<string, string>

    constructor (parameters: map<string, string>)
      ensures this.parameters == parameters
    {
      this.parameters := parameters;
    }

    method Set(key: string, value: string)
      modifies this
      ensures parameters == old(parameters)[key := value]
    {
      parameters := parameters[key := value];
    }
  }

  class UserLoginSubscriber {
    /** The name of the route the login happened on. */
    const routeName: string
    /** The query bag of the current request. */
    const query: ParameterBag
    /** The URL generator for a route name. */
    const urlForRoute: string -> string

    constructor (routeName: string, query: ParameterBag, urlForRoute: string -> string)
      ensures this.routeName == routeName && this.query == query && this.urlForRoute == urlForRoute
    {
      this.routeName := routeName;
      this.query := query;
      this.urlForRoute := urlForRoute;
    }

    /** `onUserLogin`: send the browser into the relay after the login, except on excluded routes. */
    method OnUserLogin()
      modifies query
      ensures query.parameters == RedirectedQuery(routeName, old(query.parameters), urlForRoute(EntryRoute))
    {
      if routeName !in ExcludedRoutes {
        var destination := urlForRoute(EntryRoute);
        query.Set(DestinationKey, destination);
      }
    }
  }
}
