/** Publishing branches on ports: the records in the branch store, and the listeners of this process. */
module BranchPorts {
  import opened Options
  import opened BranchStore

  predicate Publishes(branches: Branches, name: Name, port: int) {
    && name in branches && !branches[name].deleted
    && branches[name].endpointPublished && branches[name].endpointPort == port && port > 0
  }

  function UsedPorts(branches: Branches): set<int> {
    set name | name in branches && Publishes(branches, name, branches[name].endpointPort) :: branches[name].endpointPort
  }

  /** No two active branches are published on one port. */
  ghost predicate PortsUnique(branches: Branches) {
    forall a, b, port :: Publishes(branches, a, port) && Publishes(branches, b, port) ==> a == b
  }

  datatype Outcome = Done(port: int) | Refused

  /** Only the listener of this branch may have changed. */
  predicate OnlyListener(before: map<Name, int>, after: map<Name, int>, name: Name) {
    before - {name} == after - {name}
  }

  /** A branch can bind a port that no other process and no other branch holds. */
  predicate Bindable(listeners: map<Name, int>, heldOutside: set<int>, name: Name, port: int) {
    port !in heldOutside && forall other | other in listeners && other != name :: listeners[other] != port
  }

  lemma BindableAlone(listeners: map<Name, int>, heldOutside: set<int>, name: Name, port: int)
    ensures Bindable(listeners - {name}, heldOutside, name, port) <==> Bindable(listeners, heldOutside, name, port)
  {
    forall other | other in listeners && other != name
      ensures other in listeners - {name} && (listeners - {name})[other] == listeners[other]
    {
    }
  }

  class Endpoints {
    const store: Store
    const portStart: int
    const portEnd: int
    var listeners: map<Name, int>
    var heldOutside: set<int>  // the ports that other processes hold

    constructor (store: Store, portStart: int, portEnd: int, heldOutside: set<int>)
      requires 1 <= portStart <= portEnd <= 65535
      ensures this.store == store && this.portStart == portStart && this.portEnd == portEnd
      ensures listeners == map[] && this.heldOutside == heldOutside
    {
      this.store, this.portStart, this.portEnd := store, portStart, portEnd;
      this.listeners, this.heldOutside := map[], heldOutside;
    }

    ghost predicate Valid()
      reads this, store
    {
      && store.Valid() && PortsUnique(store.branches) && 1 <= portStart <= portEnd <= 65535
      && (forall a, b | a in listeners && b in listeners && listeners[a] == listeners[b] :: a == b)
      && forall a | a in listeners :: listeners[a] !in heldOutside
    }

    /** A port of the range that no active branch is published on and that can be bound. */
    predicate IsFree(name: Name, port: int)
      reads this, store
    {
      portStart <= port <= portEnd && port !in UsedPorts(store.branches) && Bindable(listeners, heldOutside, name, port)
    }

    /** Listens for a branch; a listener that it has on another port is closed first. */
    method StartListener(name: Name, port: int) returns (bound: bool)
      requires Valid()
      modifies this`listeners
      ensures Valid() && bound == Bindable(old(listeners), heldOutside, name, port)
      ensures listeners == if bound then old(listeners)[name := port] else old(listeners) - {name}
    {
      BindableAlone(listeners, heldOutside, name, port);
      if name in listeners && listeners[name] == port {
        return true;
      }
      listeners := listeners - {name};
      bound := Bindable(listeners, heldOutside, name, port);
      if bound {
        listeners := listeners[name := port];
      }
    }

    method StopListener(name: Name)
      requires Valid()
      modifies this`listeners
      ensures Valid() && listeners == old(listeners) - {name}
    {
      listeners := listeners - {name};
    }

    /** Finds the lowest free port, and finds none only when there is none. */
    method AllocatePortAndStartListener(name: Name) returns (port: Option<int>)
      requires Valid()
      modifies this`listeners
      ensures Valid()
      ensures port.Some? ==> && old(IsFree(name, port.value))
                             && (forall lower | lower < port.value :: !old(IsFree(name, lower)))
                             && listeners == old(listeners)[name := port.value]
      ensures port.None? ==> forall p :: !old(IsFree(name, p))
      ensures port.None? ==> listeners == old(listeners) || listeners == old(listeners) - {name}
    {
      var used := UsedPorts(store.branches);
      var p := portStart;
      while p <= portEnd
        invariant Valid() && used == UsedPorts(store.branches)
        invariant listeners == old(listeners) || listeners == old(listeners) - {name}
        invariant forall lower | lower < p :: !old(IsFree(name, lower))
      {
        BindableAlone(old(listeners), heldOutside, name, p);
        if p !in used {
          var bound := StartListener(name, p);
          if bound {
            return Some(p);
          }
        }
        p := p + 1;
      }
      return None;
    }

    /**
     Publishing a branch: success leaves it published on a port of its own, the one it had or the lowest one that
     was free; failure records nothing, and takes down a listener that was started for it.  When no write fails it
     succeeds exactly if the branch is active and complete and there is a port for it.
     */
    method Publish(rawName: Name, complete: bool) returns (r: Outcome)
      requires Valid()
      modifies this`listeners, store`branches, store`table
      ensures Valid()
      ensures r.Refused? ==> store.branches == old(store.branches)
      ensures r.Refused? && Trim(rawName) in listeners && listeners != old(listeners) ==>
                Trim(rawName) in store.branches
                && listeners[Trim(rawName)] == store.branches[Trim(rawName)].endpointPort
      ensures OnlyListener(old(listeners), listeners, Trim(rawName))
      ensures r.Done? && (exists port :: Publishes(old(store.branches), Trim(rawName), port)) ==>
                Publishes(old(store.branches), Trim(rawName), r.port) && store.branches == old(store.branches)
      ensures r.Done? && !(exists port :: Publishes(old(store.branches), Trim(rawName), port)) ==>
                && old(IsFree(Trim(rawName), r.port))
                && (forall lower | lower < r.port :: !old(IsFree(Trim(rawName), lower)))
                && Trim(rawName) in old(store.branches)
                && store.branches == old(store.branches)[Trim(rawName) := old(store.branches)[Trim(rawName)].(
                                            endpointPublished := true, endpointPort := r.port)]
      ensures r.Done? ==> && Publishes(store.branches, Trim(rawName), r.port) && complete
                          && Trim(rawName) in listeners && listeners[Trim(rawName)] == r.port
      ensures r.Refused? && store.calm && complete && old(store.Active(Trim(rawName))) ==>
                if exists port :: Publishes(old(store.branches), Trim(rawName), port)
                then forall port | Publishes(old(store.branches), Trim(rawName), port) ::
                       !Bindable(old(listeners), heldOutside, Trim(rawName), port)
                else forall port :: !old(IsFree(Trim(rawName), port))
    {
      var name := Trim(rawName);
      assert NO_NAME in store.branches ==> Named(store.branches, NO_NAME);
      if name == NO_NAME || !complete || !store.Active(name) {
        return Refused;
      }
      var b := store.branches[name];
      var port := b.endpointPort;
      var newPublish := !b.endpointPublished || port <= 0;
      assert !newPublish ==> Publishes(store.branches, name, port);
      if newPublish {
        var found := AllocatePortAndStartListener(name);
        if found.None? {
          return Refused;
        }
        port := found.value;
      } else {
        var bound := StartListener(name, port);
        if !bound {
          return Refused;
        }
      }
      var selectionWritten: bool := *;
      if !selectionWritten && !store.calm {
        if newPublish {
          StopListener(name);
        }
        return Refused;
      }
      if newPublish {
        var recorded := RecordPort(name, port);
        if !recorded {
          StopListener(name);
          return Refused;
        }
      }
      return Done(port);
    }

    /** Records a port that no active branch is published on. */
    method RecordPort(name: Name, port: int) returns (done: bool)
      requires Valid() && store.Active(name) && port !in UsedPorts(store.branches) && 1 <= port <= 65535
      modifies store`branches, store`table
      ensures Valid() && (store.calm ==> done) && (!done ==> store.branches == old(store.branches))
      ensures done ==>
                store.branches == old(store.branches)[name := WithEndpoint(old(store.branches)[name], true, port)]
      ensures done ==> Publishes(store.branches, name, port)
    {
      assert Named(store.branches, name);
      TrimTrims(name);
      var failure := store.SetEndpoint(name, true, port);
      PortRecorded(old(store.branches), name, port);
      done := failure.None?;
    }

    /** Unpublishing a branch stops its listener first; the record goes last. */
    method Unpublish(rawName: Name) returns (done: bool)
      requires Valid()
      modifies this`listeners, store`branches, store`table
      ensures Valid() && (done ==> old(store.Active(Trim(rawName))))
      ensures !done ==> store.branches == old(store.branches) && (store.calm ==> !store.Active(Trim(rawName)))
      ensures done ==>
                store.branches == if old(store.branches)[Trim(rawName)].endpointPublished
                                  then old(store.branches)[Trim(rawName) := old(store.branches)[Trim(rawName)].(
                                               endpointPublished := false, endpointPort := 0)]
                                  else old(store.branches)
      ensures done ==> forall port :: !Publishes(store.branches, Trim(rawName), port)
      ensures done && (exists port :: Publishes(old(store.branches), Trim(rawName), port)) ==>
            Trim(rawName) !in listeners
      ensures OnlyListener(old(listeners), listeners, Trim(rawName))
    {
      var name := Trim(rawName);
      assert NO_NAME in store.branches ==> Named(store.branches, NO_NAME);
      if name == NO_NAME || !store.Active(name) {
        return false;
      }
      if !store.branches[name].endpointPublished {
        return true;
      }
      StopListener(name);
      var removed: bool := *;
      if !removed && !store.calm {
        return false;
      }
      TrimTrims(rawName);
      TrimTrims(name);
      PublishesLess(store.branches, name, WithEndpoint(store.branches[name], false, 0));
      var failure := store.SetEndpoint(name, false, 0);
      done := failure.None?;
    }

    /** Any run of publishing, unpublishing, deleting and creating branches, with any failures. */
    method RunOperations(count: nat)
      requires Valid()
      modifies this, store
      ensures Valid() && PortsUnique(store.branches)
    {
      for i := 0 to count
        invariant Valid()
      {
        ghost var before := store.branches;
        var choice: nat, name: Name, other: Name, complete: bool := *, *, *, *;
        store.calm := *;
        if choice == 4 {
          var held: set<int> := *;
          heldOutside := set p | p in held && forall a | a in listeners :: listeners[a] != p;
        } else if choice == 0 {
          var r := Publish(name, complete);
        } else if choice == 1 {
          var done := Unpublish(name);
        } else if choice == 2 {
          var failure := store.SoftDelete(name, 0);
          RecordsPublishLess(before, store.branches, Trim(name));
        } else {
          var failure := store.Create(name, other, None, None, None, 0);
          RecordsPublishLess(before, store.branches, Trim(name));
        }
      }
    }
  }

  const DEFAULT_PORT_START := 56000
  const DEFAULT_PORT_END := 56049

  /** A range of ports, the default where it is left open; no other range is accepted. */
  method NewEndpoints(store: Store, portStart: int, portEnd: int, heldOutside: set<int>)
    returns (made: Option<Endpoints>)
    requires store.Valid() && PortsUnique(store.branches)
    ensures var first := if portStart == 0 then DEFAULT_PORT_START else portStart;
            var last := if portEnd == 0 then DEFAULT_PORT_END else portEnd;
            && (made.Some? <==> 1 <= first <= last <= 65535)
            && (made.Some? ==> && fresh(made.value) && made.value.Valid() && made.value.store == store
                               && made.value.portStart == first && made.value.portEnd == last
                               && made.value.heldOutside == heldOutside)
  {
    var first, last := if portStart == 0 then DEFAULT_PORT_START else portStart,
                       if portEnd == 0 then DEFAULT_PORT_END else portEnd;
    if first < 1 || last < first || last > 65535 {
      return None;
    }
    var e := new Endpoints(store, first, last, heldOutside);
    return Some(e);
  }

  /** A port that no active branch is published on stays its branch's own. */
  lemma PortRecorded(branches: Branches, name: Name, port: int)
    requires PortsUnique(branches) && name in branches && port !in UsedPorts(branches)
    ensures PortsUnique(branches[name := WithEndpoint(branches[name], true, port)])
  {
    var after := branches[name := WithEndpoint(branches[name], true, port)];
    forall a, b, p | Publishes(after, a, p) && Publishes(after, b, p) ensures a == b {
      if a != name {
        assert Publishes(branches, a, p) && p in UsedPorts(branches);
      }
      if b != name {
        assert Publishes(branches, b, p) && p in UsedPorts(branches);
      }
    }
  }

  /** A record that publishes nothing leaves the ports of the others alone. */
  lemma PublishesLess(branches: Branches, name: Name, b: Branch)
    requires PortsUnique(branches) && (b.deleted || !b.endpointPublished)
    ensures PortsUnique(branches[name := b])
  {
    var after := branches[name := b];
    forall a, c, p | Publishes(after, a, p) && Publishes(after, c, p) ensures a == c {
      assert Publishes(branches, a, p) && Publishes(branches, c, p);
    }
  }

  lemma RecordsPublishLess(before: Branches, after: Branches, name: Name)
    requires PortsUnique(before)
    requires after == before || exists b: Branch :: (b.deleted || !b.endpointPublished) && after == before[name := b]
    ensures PortsUnique(after)
  {
    if after != before {
      var b: Branch :| (b.deleted || !b.endpointPublished) && after == before[name := b];
      PublishesLess(before, name, b);
    }
  }
}
