/**
 The drain that comes before a branch's own compute is removed for the primary.  It reads a count of open
 connections that is discarded whenever the listener of the branch is stopped, while the connections live on.
 */
module PrimaryDrain {
  import opened Options
  import opened Selections
  import opened PrimaryHandoff

  /** No connection to the branch has a route, or had one when it was let go. */
  predicate Unrouted(clients: map<nat, Client>, name: Name) {
    forall c | c in clients && clients[c].name == name ::
      var stage := clients[c].stage;
      !stage.Lazy? && !stage.Backed? && !stage.Dialing? && !stage.Proxying?
  }

  /** The connections to a branch that are open. */
  function Live(clients: map<nat, Client>, name: Name): set<nat> {
    set c | c in clients && clients[c].name == name && !clients[c].stage.Ended?
  }

  /** The controller counts the connections to this branch right. */
  predicate CountsRight(active: map<Name, nat>, clients: map<nat, Client>, name: Name) {
    Count(active, name) == |Live(clients, name)|
  }

  /** Every count is right, and a branch that has been drained has no connection with a route. */
  ghost predicate DrainOk(s: State) {
    && (forall name: Name :: CountsRight(s.active, s.clients, name))
    && DrainedOk(s.thread, s.clients)
  }

  predicate DrainedOk(thread: Thread, clients: map<nat, Client>) {
    IsDrained(thread) ==> Unrouted(clients, thread.branch)
  }

  lemma LiveOf(clients: map<nat, Client>, c: nat, client: Client, name: Name)
    ensures Live(clients[c := client], name) ==
            if client.name == name && !client.stage.Ended? then Live(clients, name) + {c} else Live(clients, name) - {c}
    ensures c in Live(clients, name) <==> c in clients && clients[c].name == name && !clients[c].stage.Ended?
  {
  }

  /** A connection that moves on is counted on, and one that ends is counted no more. */
  lemma MoveCounts(active: map<Name, nat>, clients: map<nat, Client>, c: nat, next: Client, name: Name)
    requires c in clients && !clients[c].stage.Ended? && next.name == clients[c].name
    requires CountsRight(active, clients, name)
    ensures CountsRight(if next.stage.Ended? then CountDown(active, next.name) else active, clients[c := next], name)
  {
    hide Live;
    LiveOf(clients, c, next, name);
    if next.name == name {
      assert Live(clients, name) + {c} == Live(clients, name);
    } else {
      assert Live(clients, name) - {c} == Live(clients, name);
    }
  }

  lemma ArriveCounts(active: map<Name, nat>, clients: map<nat, Client>, c: nat, client: Client, name: Name)
    requires c !in clients && client.stage.Arrived? && CountsRight(active, clients, name)
    ensures CountsRight(CountUp(active, client.name), clients[c := client], name)
  {
    LiveOf(clients, c, client, name);
    assert Live(clients, name) - {c} == Live(clients, name);
  }

  /** Discarding the count of a branch is right exactly when no connection to it is open. */
  lemma DiscardCountsRight(s: State, name: Name)
    requires CountsRight(s.active, s.clients, name) && Next(s, Forget(name)).Some?
    ensures CountsRight(Next(s, Forget(name)).value.active, s.clients, name) <==> Live(s.clients, name) == {}
  {
  }

  lemma NoneLive(clients: map<nat, Client>, name: Name)
    requires |Live(clients, name)| == 0
    ensures Unrouted(clients, name)
  {
    forall c | c in clients && clients[c].name == name ensures clients[c].stage.Ended? {
      LiveOf(clients, c, clients[c], name);
      assert Live(clients, name) == {};
    }
  }

  /** A reserved branch gets no route. */
  lemma StillUnrouted(s: State, c: nat, next: Client)
    requires c in s.clients && s.thread.Busy? && s.thread.branch in s.reserved && Unrouted(s.clients, s.thread.branch)
    requires ClientOk(next, s.transitioning || s.blocked, s.reserved, s.memory) && Follows(s.clients[c], next)
    ensures Unrouted(s.clients[c := next], s.thread.branch)
  {
  }

  /** The count and the drain concern only these parts of the state. */
  predicate Leaves(s: State, s': State) {
    s'.clients == s.clients && s'.active == s.active
    && (IsDrained(s'.thread) ==> s'.thread.branch in DrainedNames(s.thread))
  }

  predicate IsDrained(thread: Thread) {
    thread.Busy? && thread.phase.Held? && !thread.phase.step.Idle?
  }

  function DrainedNames(thread: Thread): set<Name> {
    if IsDrained(thread) then {thread.branch} else {}
  }

  lemma LeavesDrained(s: State, s': State)
    requires DrainOk(s) && Leaves(s, s')
    ensures DrainOk(s')
  {
    forall name: Name ensures CountsRight(s'.active, s'.clients, name) {
      assert CountsRight(s.active, s.clients, name);
    }
  }

  lemma ProceedDrains(s: State, e: Event)
    requires Inv(s) && DrainOk(s) && e.Proceed? && Next(s, e).Some?
    ensures DrainOk(Next(s, e).value)
  {
    var client, next, s' := s.clients[e.c], MoveOf(s, s.clients[e.c], e.done).client, Next(s, e).value;
    assert ClientOk(client, s.transitioning || s.blocked, s.reserved, s.memory);
    MoveIsAccounted(s, client, e.done);
    MoveIsOk(s, client, e.done);
    forall name: Name ensures CountsRight(s'.active, s'.clients, name) {
      MoveCounts(s.active, s.clients, e.c, next, name);
    }
    if IsDrained(s.thread) {
      StillUnrouted(s, e.c, next);
    }
  }

  lemma ArriveDrains(s: State, e: Event)
    requires DrainOk(s) && e.Arrive? && Next(s, e).Some?
    ensures DrainOk(Next(s, e).value)
  {
    var s' := Next(s, e).value;
    forall name: Name ensures CountsRight(s'.active, s'.clients, name) {
      ArriveCounts(s.active, s.clients, e.c, s'.clients[e.c], name);
    }
  }

  lemma ForgetDrains(s: State, e: Event)
    requires DrainOk(s) && e.Forget? && Next(s, e).Some? && Live(s.clients, e.name) == {}
    ensures DrainOk(Next(s, e).value)
  {
    var s' := Next(s, e).value;
    forall name: Name ensures CountsRight(s'.active, s'.clients, name) {
      assert CountsRight(s.active, s.clients, name);
    }
  }

  lemma DrainDrains(s: State, e: Event)
    requires DrainOk(s) && e.Drain? && Next(s, e).Some?
    ensures DrainOk(Next(s, e).value)
  {
    assert CountsRight(s.active, s.clients, s.thread.branch);
    NoneLive(s.clients, s.thread.branch);
  }

  lemma WorldLeaves(s: State, e: Event)
    requires (OfWorld(e) && !e.Forget?) || e.StartBox?
    requires Next(s, e).Some?
    ensures Leaves(s, Next(s, e).value)
  {
  }

  lemma ChooseLeaves(s: State, e: Event)
    requires e.Choose? && Next(s, e).Some?
    ensures Leaves(s, Next(s, e).value)
  {
  }

  lemma ReserveLeaves(s: State, e: Event)
    requires e.Reserve? && Next(s, e).Some?
    ensures Leaves(s, Next(s, e).value)
  {
  }

  lemma EndLeaves(s: State)
    requires s.thread.Busy? && OnRelease(s).Some?
    ensures Leaves(s, OnRelease(s).value)
  {
  }

  lemma ReleaseLeaves(s: State, e: Event)
    requires e.Release? && Next(s, e).Some?
    ensures Leaves(s, Next(s, e).value)
  {
    EndLeaves(s);
  }

  lemma BoxLeaves(s: State, e: Event)
    requires (e.FindBox? || e.RestartBox?) && Next(s, e).Some?
    ensures Leaves(s, Next(s, e).value)
  {
  }

  lemma PrepareLeaves(s: State, e: Event)
    requires e.Prepare? && Next(s, e).Some?
    ensures Leaves(s, Next(s, e).value)
  {
  }

  lemma BeginLeaves(s: State, e: Event)
    requires (e.Begin? || e.Finish?) && Next(s, e).Some?
    ensures Leaves(s, Next(s, e).value)
  {
  }

  lemma InspectLeaves(s: State, e: Event)
    requires (e.Inspect?) && Next(s, e).Some?
    ensures Leaves(s, Next(s, e).value)
  {
  }

  lemma VerifyLeaves(s: State, e: Event)
    requires (e.Verify?) && Next(s, e).Some?
    ensures Leaves(s, Next(s, e).value)
  {
  }

  lemma WriteLeaves(s: State, e: Event)
    requires (e.Write?) && Next(s, e).Some?
    ensures Leaves(s, Next(s, e).value)
  {
  }

  lemma StopLeaves(s: State, e: Event)
    requires (e.StopCompute?) && Next(s, e).Some?
    ensures Leaves(s, Next(s, e).value)
  {
  }

  lemma StartLeaves(s: State, e: Event)
    requires (e.StartCompute?) && Next(s, e).Some?
    ensures Leaves(s, Next(s, e).value)
  {
  }

  lemma OthersLeave(s: State, e: Event)
    requires !e.Arrive? && !e.Proceed? && !e.Forget? && !e.Drain? && Next(s, e).Some?
    ensures Leaves(s, Next(s, e).value)
  {
    if OfWorld(e) || e.StartBox? { WorldLeaves(s, e); }
    else if e.Choose? { ChooseLeaves(s, e); }
    else if e.Reserve? { ReserveLeaves(s, e); }
    else if e.Release? { ReleaseLeaves(s, e); }
    else if e.FindBox? || e.RestartBox? { BoxLeaves(s, e); }
    else if e.Prepare? { PrepareLeaves(s, e); }
    else if e.Begin? || e.Finish? { BeginLeaves(s, e); }
    else if e.Inspect? { InspectLeaves(s, e); }
    else if e.Verify? { VerifyLeaves(s, e); }
    else if e.Write? { WriteLeaves(s, e); }
    else if e.StopCompute? { StopLeaves(s, e); }
    else { StartLeaves(s, e); }
  }

  /** Every step counts right but the stop of a listener while a connection to its branch is open. */
  lemma NextDrains(s: State, e: Event)
    requires Inv(s) && DrainOk(s) && Next(s, e).Some? && (e.Forget? ==> Live(s.clients, e.name) == {})
    ensures DrainOk(Next(s, e).value)
  {
    if e.Arrive? {
      ArriveDrains(s, e);
    } else if e.Proceed? {
      ProceedDrains(s, e);
    } else if e.Forget? {
      ForgetDrains(s, e);
    } else if e.Drain? {
      DrainDrains(s, e);
    } else {
      OthersLeave(s, e);
      LeavesDrained(s, Next(s, e).value);
    }
  }

  /** No listener is stopped while a connection to its branch is open. */
  ghost predicate Careful(s: State, events: seq<Event>)
    decreases |events|
  {
    events == [] ||
    (&& (events[0].Forget? ==> Live(s.clients, events[0].name) == {})
     && match Next(s, events[0]) case None => true case Some(s') => Careful(s', events[1..]))
  }

  lemma {:induction false} RunDrains(s: State, events: seq<Event>)
    requires Inv(s) && DrainOk(s) && Run(s, events).Some? && Careful(s, events)
    ensures DrainOk(Run(s, events).value)
    decreases |events|
  {
    if events != [] {
      NextKeeps(s, events[0]);
      NextDrains(s, events[0]);
      RunDrains(Next(s, events[0]).value, events[1..]);
    }
  }

  /**
   A branch's own compute is not removed for the primary while a connection to the branch is open, so long as
   no listener was stopped while one was.
   */
  lemma NoConnectionCut(start: State, events: seq<Event>)
    requires Clean(start) && Run(start, events + [Prepare(true)]).Some? && Careful(start, events)
    ensures var before, after := Run(start, events), Run(start, events + [Prepare(true)]).value;
            && before.Some? && before.value.thread.Busy? && before.value.thread.branch !in after.boxes
            && Unrouted(before.value.clients, before.value.thread.branch)
  {
    RunSplit(start, events, Prepare(true));
    CleanIsSafe(start);
    forall name: Name ensures CountsRight(start.active, start.clients, name) {
      assert Live(start.clients, name) == {};
    }
    RunDrains(start, events);
  }

  /** What an operation thread does to take a branch over, from the moment its listener is stopped. */
  function TakeOver(name: Name): seq<Event> {
    [Forget(name), Choose(Switch, name), Reserve, Drain, Prepare(true)]
  }

  lemma RunStep(s: State, e: Event, rest: seq<Event>, s': State)
    requires Next(s, e) == Some(s')
    ensures Run(s, [e] + rest) == Run(s', rest)
  {
    assert ([e] + rest)[1..] == rest;
  }

  lemma HoldSteps(s: State, name: Name)
    requires s.thread == Busy(Switch, name, Chosen) && s.leases == 0 && Count(s.active, name) == 0
    ensures var s1 := s.(thread := Busy(Switch, name, Held(Idle)), reserved := s.reserved + multiset{name});
            var s2 := s1.(thread := Busy(Switch, name, Held(Drained)));
            && Next(s, Reserve) == Some(s1) && Next(s1, Drain) == Some(s2)
            && Next(s2, Prepare(true))
               == Some(s1.(thread := Busy(Switch, name, Held(Prepared)), boxes := s.boxes - {name}))
  {
  }

  /** With no lease out and no count of its connections, the compute of the branch that was chosen is removed. */
  lemma HoldRuns(s: State, name: Name)
    requires s.thread == Busy(Switch, name, Chosen) && s.leases == 0 && Count(s.active, name) == 0
    ensures Run(s, [Reserve, Drain, Prepare(true)])
            == Some(s.(thread := Busy(Switch, name, Held(Prepared)), reserved := s.reserved + multiset{name},
                       boxes := s.boxes - {name}))
  {
    hide Next;
    HoldSteps(s, name);
    var s1 := s.(thread := Busy(Switch, name, Held(Idle)), reserved := s.reserved + multiset{name});
    var s2 := s1.(thread := Busy(Switch, name, Held(Drained)));
    var s3 := s1.(thread := Busy(Switch, name, Held(Prepared)), boxes := s.boxes - {name});
    RunStep(s2, Prepare(true), [], s3);
    RunStep(s1, Drain, [Prepare(true)], s2);
    RunStep(s, Reserve, [Drain, Prepare(true)], s1);
    assert [Prepare(true)] == [Prepare(true)] + [] && [Drain] + [Prepare(true)] == [Drain, Prepare(true)];
    assert [Reserve] + [Drain, Prepare(true)] == [Reserve, Drain, Prepare(true)];
  }

  /** A thread that rests, with no lease out, takes over any branch whose count is gone. */
  lemma TakeOverRuns(s: State, name: Name)
    requires s.thread == Resting && s.leases == 0
    ensures Run(s, TakeOver(name)) == Some(s.(active := s.active - {name}, thread := Busy(Switch, name, Held(Prepared)),
                                               reserved := s.reserved + multiset{name}, boxes := s.boxes - {name}))
  {
    var s0 := s.(active := s.active - {name});
    var s1 := s0.(thread := Busy(Switch, name, Chosen));
    HoldRuns(s1, name);
    RunStep(s0, Choose(Switch, name), [Reserve, Drain, Prepare(true)], s1);
    RunStep(s, Forget(name), [Choose(Switch, name), Reserve, Drain, Prepare(true)], s0);
    assert [Choose(Switch, name)] + [Reserve, Drain, Prepare(true)]
           == [Choose(Switch, name), Reserve, Drain, Prepare(true)];
    assert [Forget(name)] + [Choose(Switch, name), Reserve, Drain, Prepare(true)] == TakeOver(name);
  }

  /** A connection to its branch's own compute, which is up. */
  predicate Served(s: State, c: nat) {
    && c in s.clients && s.clients[c].name in s.boxes
    && (s.clients[c].stage.Dialing? || s.clients[c].stage == Proxying(true))
  }

  /**
   Without that care every open connection to a branch's own compute can be cut: once its listener has been
   stopped the drain passes, and the compute that runs is removed under the connection.
   */
  lemma DiscardCuts(s: State, c: nat)
    requires s.thread == Resting && s.leases == 0 && Served(s, c)
    ensures var name := s.clients[c].name;
            && Run(s, TakeOver(name)).Some? && Run(s, TakeOver(name)).value.clients == s.clients
            && name !in Run(s, TakeOver(name)).value.boxes && !Served(Run(s, TakeOver(name)).value, c)
  {
    TakeOverRuns(s, s.clients[c].name);
  }

  lemma {:induction false} RunBoth(s: State, first: seq<Event>, second: seq<Event>)
    requires Run(s, first).Some?
    ensures Run(s, first + second) == Run(Run(s, first).value, second)
    decreases |first|
  {
    if first == [] {
      assert first + second == second;
    } else {
      assert (first + second)[0] == first[0] && (first + second)[1..] == first[1..] + second;
      RunBoth(Next(s, first[0]).value, first[1..], second);
    }
  }

  /**
   A client of a branch that the primary keeps off, from its arrival until it is proxied to the branch's compute,
   which it starts on the way.
   */
  function Connects(c: nat, name: Name, timeline: Timeline): seq<Event> {
    [Arrive(c, name, timeline), Proceed(c, true), Proceed(c, true), Proceed(c, true),
     StartBox(c), Proceed(c, true), Proceed(c, true)]
  }

  lemma OneProceeds(s: State, c: nat, client: Client)
    requires s.clients == map[c := client] && !client.stage.Ended? && !MoveOf(s, client, true).client.stage.Ended?
    ensures var move := MoveOf(s, client, true);
            Next(s, Proceed(c, true)) == Some(s.(clients := map[c := move.client], leases := s.leases + move.readers))
  {
    assert map[c := client][c := MoveOf(s, client, true).client] == map[c := MoveOf(s, client, true).client];
  }

  /** It asks for its route, while the primary is down. */
  lemma Asks(s: State, c: nat, name: Name, timeline: Timeline)
    requires Clean(s) && timeline.owner == name
    ensures var client := Client(name, timeline, Asked(false), Nothing, 1, 0);
            Run(s, [Arrive(c, name, timeline), Proceed(c, true), Proceed(c, true)])
            == Some(s.(clients := map[c := client], active := map[name := 1], leases := 1))
  {
    var e, client := Proceed(c, true), Client(name, timeline, Arrived, Nothing, 0, 0);
    var s1 := s.(clients := map[c := client], active := map[name := 1]);
    var s2 := s1.(clients := map[c := client.(stage := Leased, taken := 1)], leases := 1);
    var s3 := s1.(clients := map[c := client.(stage := Asked(false), taken := 1)], leases := 1);
    assert Next(s, Arrive(c, name, timeline)) == Some(s1);
    OneProceeds(s1, c, client);
    OneProceeds(s2, c, s2.clients[c]);
    RunStep(s2, e, [], s3);
    RunStep(s1, e, [e], s2);
    RunStep(s, Arrive(c, name, timeline), [e, e], s1);
    assert [e] + [] == [e] && [e] + [e] == [e, e];
    assert [Arrive(c, name, timeline)] + [e, e] == [Arrive(c, name, timeline), e, e];
  }

  /** It is granted a lazy route, starts the compute, gives its lease back and is connected. */
  lemma IsProxied(s: State, c: nat, client: Client)
    requires s.clients == map[c := client] && client.stage.Asked? && client.taken == 1 && client.given == 0
    requires Route(s, client.name, client.timeline, client.stage.ready) == Lazy
    ensures var next := client.(stage := Proxying(true), release := Unlock, given := 1);
            Run(s, [Proceed(c, true), StartBox(c), Proceed(c, true), Proceed(c, true)])
            == Some(s.(clients := map[c := next], leases := s.leases - 1, boxes := s.boxes + {client.name}))
  {
    hide Next;
    var e := Proceed(c, true);
    var s1 := s.(clients := map[c := client.(stage := Lazy, release := Unlock)]);
    var s2 := s1.(boxes := s.boxes + {client.name});
    OneProceeds(s, c, client);
    BoxStarts(s1, c);
    IsConnected(s2, c, s2.clients[c]);
    RunStep(s1, StartBox(c), [e, e], s2);
    RunStep(s, e, [StartBox(c), e, e], s1);
    assert [StartBox(c)] + [e, e] == [StartBox(c), e, e] && [e] + [StartBox(c), e, e] == [e, StartBox(c), e, e];
  }

  lemma BoxStarts(s: State, c: nat)
    requires c in s.clients && s.clients[c].stage.Lazy?
    ensures Next(s, StartBox(c)) == Some(s.(boxes := s.boxes + {s.clients[c].name}))
  {
  }

  lemma IsConnected(s: State, c: nat, client: Client)
    requires s.clients == map[c := client] && client.stage.Lazy? && client.release.Unlock? && client.given == 0
    requires client.name in s.boxes
    ensures Run(s, [Proceed(c, true), Proceed(c, true)])
            == Some(s.(clients := map[c := client.(stage := Proxying(true), given := 1)], leases := s.leases - 1))
  {
    hide Next;
    var e := Proceed(c, true);
    var s1 := s.(clients := map[c := client.(stage := Dialing, given := 1)], leases := s.leases - 1);
    var s2 := s.(clients := map[c := client.(stage := Proxying(true), given := 1)], leases := s.leases - 1);
    OneProceeds(s, c, client);
    OneProceeds(s1, c, s1.clients[c]);
    RunStep(s1, e, [], s2);
    RunStep(s, e, [e], s1);
    assert [e] + [] == [e] && [e] + [e] == [e, e];
  }

  lemma Connected(s: State, c: nat, name: Name, timeline: Timeline)
    requires Clean(s) && s.applied == Some(s.memory) && timeline.owner == name && Fold(name) != Fold(s.memory.branch)
    ensures var client := Client(name, timeline, Proxying(true), Unlock, 1, 1);
            Run(s, Connects(c, name, timeline))
            == Some(s.(clients := map[c := client], active := map[name := 1], boxes := s.boxes + {name}))
  {
    var e, client := Proceed(c, true), Client(name, timeline, Asked(false), Nothing, 1, 0);
    var asked := s.(clients := map[c := client], active := map[name := 1], leases := 1);
    Asks(s, c, name, timeline);
    assert timeline != s.memory.timeline && Route(asked, name, timeline, false) == Lazy;
    IsProxied(asked, c, client);
    RunBoth(s, [Arrive(c, name, timeline), e, e], [e, StartBox(c), e, e]);
    assert [Arrive(c, name, timeline), e, e] + [e, StartBox(c), e, e] == Connects(c, name, timeline);
  }

  /**
   Such a run starts from any clean state in which the compute has acknowledged what the manager remembers: a
   client is proxied to its branch's compute, and that is removed while the client still is.
   */
  lemma ConnectionIsCut(start: State, c: nat, name: Name, timeline: Timeline)
    requires Clean(start) && start.applied == Some(start.memory)
    requires timeline.owner == name && Fold(name) != Fold(start.memory.branch)
    ensures var open := Run(start, Connects(c, name, timeline));
            var end := Run(start, Connects(c, name, timeline) + TakeOver(name));
            && open.Some? && Served(open.value, c) && open.value.clients[c].name == name
            && end.Some? && end.value.thread == Busy(Switch, name, Held(Prepared)) && name !in end.value.boxes
            && end.value.clients == open.value.clients
  {
    Connected(start, c, name, timeline);
    var s := Run(start, Connects(c, name, timeline)).value;
    RunBoth(start, Connects(c, name, timeline), TakeOver(name));
    DiscardCuts(s, c);
    TakeOverRuns(s, name);
  }
}
