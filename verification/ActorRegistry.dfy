// Activation of actors: one instance for each service and key, counted against the service's limit.

module ActorRegistryObject {
  import opened Wrappers

  datatype ServiceEntry = ServiceEntry(maxActors: nat, liveActors: nat)

  /** What the factory of the service does when called. */
  datatype Factory = Makes(instance: nat) | Throws | MakesNothing

  datatype Code = InvalidArgument | NotFound | Overloaded | InternalError

  /** The keys under which a service has an actor. */
  function KeysOf(actors: map<(string, string), nat>, service: string): set<(string, string)> {
    set id | id in actors && id.0 == service
  }

  lemma OneMoreKey(actors: map<(string, string), nat>, id: (string, string), instance: nat, service: string)
    requires id !in actors
    ensures |KeysOf(actors[id := instance], service)| == |KeysOf(actors, service)| + (if service == id.0 then 1 else 0)
  {
    if service == id.0 {
      assert KeysOf(actors[id := instance], service) == KeysOf(actors, service) + {id};
    } else {
      assert KeysOf(actors[id := instance], service) == KeysOf(actors, service);
    }
  }

  predicate CanActivate(services: map<string, ServiceEntry>, service: string, factory: Factory) {
    service in services && services[service].liveActors < services[service].maxActors && factory.Makes?
  }

  function Refusal(services: map<string, ServiceEntry>, service: string, key: string): Code {
    if key == "" then InvalidArgument
    else if service !in services then NotFound
    else if services[service].liveActors >= services[service].maxActors then Overloaded
    else InternalError
  }

  class ActorRegistry {
    var services: map<string, ServiceEntry>
    var actors: map<(string, string), nat>

    /** The live counter is exact and within the limit, and only registered services have actors. */
    predicate Valid()
      reads this
    {
      && (forall s | s in services ::
           services[s].liveActors == |KeysOf(actors, s)| && services[s].liveActors <= services[s].maxActors
           && services[s].maxActors > 0)
      && (forall id | id in actors :: id.0 in services && id.1 != "")
    }

    constructor ()
      ensures Valid() && services == map[] && actors == map[]
    {
      services, actors := map[], map[];
    }

    method RegisterFactory(name: string, hasFactory: bool, maxActors: nat) returns (r: Option<Code>)
      requires Valid()
      modifies this
      ensures Valid() && actors == old(actors)
      ensures r ==
        (if name == "" || !hasFactory || maxActors == 0 || name in old(services) then Some(InvalidArgument) else None)
      ensures services == if r.Some? then old(services) else old(services)[name := ServiceEntry(maxActors, 0)]
    {
      if name == "" || !hasFactory || maxActors == 0 {
        return Some(InvalidArgument);
      }
      if name in services {
        return Some(InvalidArgument);
      }
      assert KeysOf(actors, name) == {};
      services := services[name := ServiceEntry(maxActors, 0)];
      return None;
    }

    /** An actor, once there, is handed out for ever; a new one costs one slot of its service; a refused or
        failed activation leaves nothing behind. */
    method GetOrCreate(service: string, key: string, factory: Factory) returns (r: Result<nat, Code>)
      requires Valid()
      modifies this
      ensures Valid()
      ensures r.Ok? <==> key != "" && ((service, key) in old(actors) || CanActivate(old(services), service, factory))
      ensures r.Ok? ==> (service, key) in actors && actors[(service, key)] == r.value
      ensures r.Err? || (service, key) in old(actors) ==> actors == old(actors) && services == old(services)
      ensures r.Ok? && (service, key) !in old(actors) ==>
        factory == Makes(r.value) && actors == old(actors)[(service, key) := r.value]
      ensures forall id | id in old(actors) :: id in actors && actors[id] == old(actors)[id]
      ensures r.Err? ==> r.error == Refusal(old(services), service, key)
      ensures r == Err(InvalidArgument) <==> key == ""
      ensures r == Err(NotFound) <==> key != "" && (service, key) !in old(actors) && service !in old(services)
      ensures r == Err(Overloaded) <==>
        key != "" && (service, key) !in old(actors) && service in old(services)
        && old(services)[service].liveActors == old(services)[service].maxActors
      ensures r == Err(InternalError) ==> factory in {Throws, MakesNothing}
    {
      if key == "" {
        return Err(InvalidArgument);
      }
      var id := (service, key);
      if id in actors {
        return Ok(actors[id]);
      }
      if service !in services {
        return Err(NotFound);
      }
      var entry := services[service];
      if entry.liveActors >= entry.maxActors {
        return Err(Overloaded);
      }
      if !factory.Makes? {
        return Err(InternalError);
      }
      forall s | s in services
        ensures |KeysOf(actors[id := factory.instance], s)| == |KeysOf(actors, s)| + (if s == service then 1 else 0)
      {
        OneMoreKey(actors, id, factory.instance, s);
      }
      actors := actors[id := factory.instance];
      services := services[service := entry.(liveActors := entry.liveActors + 1)];
      return Ok(factory.instance);
    }

    /** ActorCount is the number of actors of the service. */
    method ActorCount(service: string) returns (n: nat)
      requires Valid()
      ensures n == |KeysOf(actors, service)|
    {
      if service in services {
        return services[service].liveActors;
      }
      assert KeysOf(actors, service) == {};
      return 0;
    }
  }
}
