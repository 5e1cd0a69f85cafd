/** The method dispatch of `handleRequests`: two routes, each with a fixed
    set of methods, and 405 for every other method. */
module Router {

  /** The two registered routes: `/users` and `/users/{id}`. */
  datatype Path = Collection | Item(id: int)

  /** The five handlers a request can reach. */
  datatype Endpoint =
    | ReadAll
    | Create
    | ReadOne(id: int)
    | Update(id: int)
    | Delete(id: int)

  datatype Dispatch = Invoke(endpoint: Endpoint) | MethodNotAllowed

  /** The route each handler is registered under. */
  function PathOf(e: Endpoint): (path: Path) {
    match e
    case ReadAll => Collection
    case Create => Collection
    case ReadOne(id) => Item(id)
    case Update(id) => Item(id)
    case Delete(id) => Item(id)
  }

  /** The method each handler answers. */
  function MethodOf(e: Endpoint): (verb: string) {
    match e
    case ReadAll => "GET"
    case Create => "POST"
    case ReadOne(_) => "GET"
    case Update(_) => "PUT"
    case Delete(_) => "DELETE"
  }

  /** The methods a route accepts. */
  function AllowedMethods(path: Path): (verbs: set<string>) {
    match path
    case Collection => {"GET", "POST"}
    case Item(_) => {"GET", "PUT", "DELETE"}
  }

  /** The handler chosen for a method on a route; method names are compared
      exactly, so `get` or `HEAD` is refused. A handler is only ever
      reached on its own route and by its own method, and an item handler
      receives the id of the path. */
  function Route(path: Path, verb: string): (d: Dispatch)
    ensures d.Invoke? ==> PathOf(d.endpoint) == path && MethodOf(d.endpoint) == verb
  {
    match path
    case Collection =>
      if verb == "GET" then Invoke(ReadAll)
      else if verb == "POST" then Invoke(Create)
      else MethodNotAllowed
    case Item(id) =>
      if verb == "GET" then Invoke(ReadOne(id))
      else if verb == "PUT" then Invoke(Update(id))
      else if verb == "DELETE" then Invoke(Delete(id))
      else MethodNotAllowed
  }

  /** A request is refused with 405 exactly when its method is not one the
      route accepts. */
  lemma RouteMethodNotAllowed(path: Path, verb: string)
    ensures Route(path, verb) == MethodNotAllowed <==> verb !in AllowedMethods(path)
  {
  }

  /** Every handler is reached by its own route and method, and only by
      them. */
  lemma RouteReaches(e: Endpoint, path: Path, verb: string)
    ensures Route(path, verb) == Invoke(e) <==> path == PathOf(e) && verb == MethodOf(e)
  {
  }
}
