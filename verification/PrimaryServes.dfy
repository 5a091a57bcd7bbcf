/**
 That the handoff gets somewhere: the primary comes to serve any branch it is switched to, and the clients of
 that branch are then granted their route and proxied to it.
 */
module PrimaryServes {
  import opened Options
  import opened Selections
  import opened PrimaryHandoff
  import opened PrimaryDrain

  /** The compute has acknowledged what the manager remembers, and routes are open. */
  predicate Open(s: State) {
    !s.transitioning && !s.blocked && s.applied.Some? && Matches(s.applied.value, s.memory)
  }

  /**
   What a client that has asked is answered, from any state that a run may reach: a route to the primary exactly if
   what it wants is what the compute has acknowledged and the compute was found ready, a route to its branch's own
   compute exactly if it wants another timeline of another branch, and in both cases it keeps its lease.
   */
  lemma AskedIsAnswered(s: State, c: nat)
    requires Inv(s) && c in s.clients && s.clients[c].stage.Asked?
    ensures var client, s' := s.clients[c], Next(s, Proceed(c, true));
            && s'.Some? && c in s'.value.clients && s'.value.leases == s.leases
            && HoldsLease(s'.value.clients[c])
            && var stage, granted := s'.value.clients[c].stage, Open(s) && !IsReserved(s.reserved, client.name);
               && (stage == Backed <==> granted && client.timeline == s.memory.timeline && client.stage.ready)
               && (stage == Lazy <==> granted && client.timeline != s.memory.timeline
                                      && Fold(client.name) != Fold(s.memory.branch))
               && (stage != Backed && stage != Lazy ==> stage == Refused)
  {
    assert ClientOk(s.clients[c], s.transitioning || s.blocked, s.reserved, s.memory);
  }

  /** A connection to a branch's own compute goes on exactly while that compute runs. */
  lemma OwnConnectionNeedsCompute(s: State, c: nat, done: bool)
    requires c in s.clients && s.clients[c].stage in {Lazy, Dialing}
    ensures var s' := Next(s, Proceed(c, done));
            && s'.Some? && c in s'.value.clients
            && s'.value.clients[c].stage == if !done || s.clients[c].name !in s.boxes then Ended
                                            else if s.clients[c].stage == Lazy then Dialing else Proxying(true)
  {
  }

  /** An operation takes effect, or has gone back, only once the compute is ready and has acknowledged the outcome. */
  lemma EffectNeedsReadiness(s: State, s': State)
    requires s.thread.Busy? && Next(s, Verify(true)) == Some(s')
    ensures s.compute.Serving? && s.compute.ready && s.applied.Some? && Matches(s.applied.value, s'.memory)
    ensures s'.memory == if s.thread.phase.BackWaiting? then s.memory else s.file
  {
  }

  /** A run, state by state. */
  lemma {:induction false} RunsThrough(states: seq<State>, events: seq<Event>)
    requires |states| == |events| + 1
    requires forall i | 0 <= i < |events| :: Next(states[i], events[i]) == Some(states[i + 1])
    ensures Run(states[0], events) == Some(states[|events|])
    decreases |events|
  {
    if events != [] {
      RunsThrough(states[1..], events[1..]);
    }
  }

  // ----- A client of the selected branch -----

  /** From its arrival until it is proxied to the primary. */
  function Visits(c: nat, name: Name, timeline: Timeline): seq<Event> {
    [Arrive(c, name, timeline), Proceed(c, true), Proceed(c, true), Proceed(c, true), Proceed(c, true)]
  }

  function With(s: State, c: nat, client: Client, leases: int): State {
    s.(clients := s.clients[c := client], leases := leases, active := CountUp(s.active, client.name))
  }

  lemma Proceeds(s: State, c: nat, client: Client, leases: int, readers: int, next: Client)
    requires !client.stage.Ended? && !next.stage.Ended?
    requires MoveOf(With(s, c, client, leases), client, true) == Move(next, readers) && next.name == client.name
    ensures Next(With(s, c, client, leases), Proceed(c, true)) == Some(With(s, c, next, leases + readers))
  {
    assert s.clients[c := client][c := next] == s.clients[c := next];
  }

  lemma Arrives(s: State, c: nat, client: Client)
    requires c !in s.clients && client == Client(client.name, client.timeline, Arrived, Nothing, 0, 0)
    requires client.timeline.owner == client.name
    ensures Next(s, Arrive(c, client.name, client.timeline)) == Some(With(s, c, client, s.leases))
  {
  }

  /** It takes the lease and asks for its route, and finds the compute ready. */
  lemma AsksReady(s: State, c: nat, client: Client, leases: int)
    requires s.compute.Serving? && s.compute.ready && client.stage.Arrived?
    ensures var leased := client.(stage := Leased, taken := client.taken + 1);
            && Next(With(s, c, client, leases), Proceed(c, true)) == Some(With(s, c, leased, leases + 1))
            && Next(With(s, c, leased, leases + 1), Proceed(c, true))
               == Some(With(s, c, leased.(stage := Asked(true)), leases + 1))
  {
    var leased := client.(stage := Leased, taken := client.taken + 1);
    Proceeds(s, c, client, leases, 1, leased);
    Proceeds(s, c, leased, leases + 1, 0, leased.(stage := Asked(true)));
  }

  /** It is granted its route, and gives the lease back once it has dialled. */
  lemma GetsThrough(s: State, c: nat, client: Client, leases: int)
    requires Open(s) && client.stage == Asked(true) && client.given == 0 && client.timeline == s.memory.timeline
    requires !IsReserved(s.reserved, client.name)
    ensures var backed := client.(stage := Backed, release := Unlock);
            && Next(With(s, c, client, leases), Proceed(c, true)) == Some(With(s, c, backed, leases))
            && Next(With(s, c, backed, leases), Proceed(c, true))
               == Some(With(s, c, backed.(stage := Proxying(false), given := 1), leases - 1))
  {
    var backed := client.(stage := Backed, release := Unlock);
    Proceeds(s, c, client, leases, 0, backed);
    Proceeds(s, c, backed, leases, -1, backed.(stage := Proxying(false), given := 1));
  }

  /**
   Whenever routes are open and the compute is ready, a client of what it has acknowledged gets through, with its
   lease given back, and leaves everything else as it was.
   */
  lemma ClientIsProxied(s: State, c: nat, name: Name, timeline: Timeline)
    requires Open(s) && s.compute.Serving? && s.compute.ready && c !in s.clients
    requires timeline == s.memory.timeline && timeline.owner == name && !IsReserved(s.reserved, name)
    ensures Run(s, Visits(c, name, timeline))
            == Some(With(s, c, Client(name, timeline, Proxying(false), Unlock, 1, 1), s.leases))
  {
    hide Next, MoveOf;
    var client, n := Client(name, timeline, Arrived, Nothing, 0, 0), s.leases;
    var leased, asked := client.(stage := Leased, taken := 1), client.(stage := Asked(true), taken := 1);
    var backed := asked.(stage := Backed, release := Unlock);
    var proxied := backed.(stage := Proxying(false), given := 1);
    Arrives(s, c, client);
    AsksReady(s, c, client, n);
    GetsThrough(s, c, asked, n + 1);
    hide With;
    RunsThrough([s, With(s, c, client, n), With(s, c, leased, n + 1), With(s, c, asked, n + 1),
                 With(s, c, backed, n + 1), With(s, c, proxied, n)], Visits(c, name, timeline));
  }

  /** From its arrival until it is proxied to its branch's own compute, which is started for it. */
  function VisitsOwn(c: nat, name: Name, timeline: Timeline): seq<Event> {
    [Arrive(c, name, timeline), Proceed(c, true), Proceed(c, true), Proceed(c, true), StartBox(c), Proceed(c, true),
     Proceed(c, true)]
  }

  /** It is granted its route, holds the lease while its compute is started, and only then gives it back. */
  lemma GetsOwn(s: State, c: nat, client: Client, leases: int)
    requires Open(s) && client.stage == Asked(true) && client.given == 0 && client.timeline != s.memory.timeline
    requires !IsReserved(s.reserved, client.name) && Fold(client.name) != Fold(s.memory.branch)
    ensures var lazy, up := client.(stage := Lazy, release := Unlock), s.(boxes := s.boxes + {client.name});
            var dials := lazy.(stage := Dialing, given := 1);
            && Next(With(s, c, client, leases), Proceed(c, true)) == Some(With(s, c, lazy, leases))
            && Next(With(s, c, lazy, leases), StartBox(c)) == Some(With(up, c, lazy, leases))
            && Next(With(up, c, lazy, leases), Proceed(c, true)) == Some(With(up, c, dials, leases - 1))
            && Next(With(up, c, dials, leases - 1), Proceed(c, true))
               == Some(With(up, c, dials.(stage := Proxying(true)), leases - 1))
  {
    var lazy, up := client.(stage := Lazy, release := Unlock), s.(boxes := s.boxes + {client.name});
    var dials := lazy.(stage := Dialing, given := 1);
    Proceeds(s, c, client, leases, 0, lazy);
    Proceeds(up, c, lazy, leases, -1, dials);
    Proceeds(up, c, dials, leases - 1, 0, dials.(stage := Proxying(true)));
  }

  /** Meanwhile a client of another branch gets through to that branch's own compute. */
  lemma OwnClientIsProxied(s: State, c: nat, name: Name, timeline: Timeline)
    requires Open(s) && s.compute.Serving? && s.compute.ready && c !in s.clients
    requires timeline != s.memory.timeline && timeline.owner == name && !IsReserved(s.reserved, name)
    requires Fold(name) != Fold(s.memory.branch)
    ensures Run(s, VisitsOwn(c, name, timeline))
            == Some(With(s.(boxes := s.boxes + {name}), c, Client(name, timeline, Proxying(true), Unlock, 1, 1),
                         s.leases))
  {
    hide Next, MoveOf;
    var client, n, up := Client(name, timeline, Arrived, Nothing, 0, 0), s.leases, s.(boxes := s.boxes + {name});
    var leased, asked := client.(stage := Leased, taken := 1), client.(stage := Asked(true), taken := 1);
    var lazy := asked.(stage := Lazy, release := Unlock);
    var dials := lazy.(stage := Dialing, given := 1);
    Arrives(s, c, client);
    AsksReady(s, c, client, n);
    GetsOwn(s, c, asked, n + 1);
    hide With;
    RunsThrough([s, With(s, c, client, n), With(s, c, leased, n + 1), With(s, c, asked, n + 1),
                 With(s, c, lazy, n + 1), With(up, c, lazy, n + 1), With(up, c, dials, n),
                 With(up, c, dials.(stage := Proxying(true)), n)], VisitsOwn(c, name, timeline));
  }

  // ----- The primary comes up -----

  function Boots(): seq<Event> {
    [Boot, Boot, Boot, Boot]
  }

  /** A compute that boots comes to serve the selection file, and says that it is ready. */
  lemma BootsRun(s: State)
    requires s.compute.Booting?
    ensures Run(s, Boots()) == Some(s.(compute := Serving(s.file, true), applied := Some(s.file)))
  {
    var s1 := s.(compute := Cleared, applied := None);
    var s2 := s1.(compute := Loaded(s.file));
    var s3 := s.(compute := Serving(s.file, false), applied := Some(s.file));
    RunsThrough([s, s1, s2, s3, s3.(compute := Serving(s.file, true))], Boots());
  }

  /** A branch is chosen, reserved, drained and prepared. */
  function Takes(operation: Operation, name: Name): seq<Event> {
    [Choose(operation, name), Reserve, Drain, Prepare(true)]
  }

  function Taken(s: State, operation: Operation, name: Name): State {
    s.(thread := Busy(operation, name, Held(Prepared)), reserved := s.reserved + multiset{name},
       boxes := s.boxes - {name})
  }

  lemma TakesRun(s: State, operation: Operation, name: Name)
    requires s.thread == Resting && s.leases == 0 && Count(s.active, name) == 0
    requires operation == Switch || (operation == Start && name == s.memory.branch)
    ensures Run(s, Takes(operation, name)) == Some(Taken(s, operation, name))
  {
    var s1 := s.(thread := Busy(operation, name, Chosen));
    var s2 := s1.(thread := Busy(operation, name, Held(Idle)), reserved := s.reserved + multiset{name});
    var s3 := s2.(thread := Busy(operation, name, Held(Drained)));
    RunsThrough([s, s1, s2, s3, Taken(s, operation, name)], Takes(operation, name));
  }

  function Selected(name: Name, generation: Option<nat>, id: nat): Selection<Timeline> {
    Selection(generation, name, Timeline(name, id))
  }

  /** The transition of a switch, up to the start of the compute. */
  function SwitchesOver(generation: Option<nat>, id: nat): seq<Event> {
    [Begin(Switch), Inspect(true), StopCompute(true, true), Write(true, generation, id), StartCompute(true, true)]
  }

  lemma SwitchHalts(s: State)
    requires MayBegin(s, Switch)
    ensures var active := !s.compute.Off?;
            var s1 := s.(thread := s.thread.(phase := SwitchBegun), transitioning := true);
            var s2 := s1.(thread := s.thread.(phase := SwitchSeen(active)));
            && Next(s, Begin(Switch)) == Some(s1) && Next(s1, Inspect(true)) == Some(s2)
            && Next(s2, StopCompute(true, true))
               == Some(s2.(thread := s.thread.(phase := SwitchHalted(active)), compute := Off))
  {
  }

  lemma SwitchNames(s: State, active: bool, generation: Option<nat>, id: nat)
    requires s.thread.Busy? && s.thread.phase == SwitchHalted(active) && s.compute == Off
    ensures var s1 := s.(thread := s.thread.(phase := SwitchNamed(active)),
                         file := Selected(s.thread.branch, generation, id));
            && Next(s, Write(true, generation, id)) == Some(s1)
            && Next(s1, StartCompute(true, true))
               == Some(s1.(thread := s.thread.(phase := SwitchWaiting(active)), compute := Booting))
  {
  }

  lemma SwitchesOverRun(s: State, generation: Option<nat>, id: nat)
    requires MayBegin(s, Switch)
    ensures Run(s, SwitchesOver(generation, id))
            == Some(s.(transitioning := true, compute := Booting, file := Selected(s.thread.branch, generation, id),
                       thread := s.thread.(phase := SwitchWaiting(!s.compute.Off?))))
  {
    var active := !s.compute.Off?;
    var s1 := s.(thread := s.thread.(phase := SwitchBegun), transitioning := true);
    var s2 := s1.(thread := s.thread.(phase := SwitchSeen(active)));
    var s3 := s2.(thread := s.thread.(phase := SwitchHalted(active)), compute := Off);
    var s4 := s3.(thread := s.thread.(phase := SwitchNamed(active)),
                  file := Selected(s.thread.branch, generation, id));
    var s5 := s4.(thread := s.thread.(phase := SwitchWaiting(active)), compute := Booting);
    hide Next;
    SwitchHalts(s);
    SwitchNames(s3, active, generation, id);
    RunsThrough([s, s1, s2, s3, s4, s5], SwitchesOver(generation, id));
  }

  /** The same for a start, which stops a compute that is up once the selection is named. */
  function StartsUp(active: bool, generation: Option<nat>, id: nat): seq<Event> {
    if active then [Begin(Start), Inspect(true), Write(true, generation, id), StopCompute(true, true),
                    StartCompute(true, true)]
    else [Begin(Start), Inspect(true), Write(true, generation, id), StartCompute(true, true)]
  }

  lemma StartNames(s: State, name: Name, generation: Option<nat>, id: nat)
    requires s.thread == Busy(Start, name, Held(Prepared)) && s.leases == 0
    ensures var active := !s.compute.Off?;
            var s1 := s.(thread := Busy(Start, name, StartBegun), transitioning := true);
            var s2 := s1.(thread := Busy(Start, name, StartSeen(active)));
            && Next(s, Begin(Start)) == Some(s1) && Next(s1, Inspect(true)) == Some(s2)
            && Next(s2, Write(true, generation, id))
               == Some(s2.(thread := Busy(Start, name, StartNamed(active)), file := Selected(name, generation, id)))
  {
  }

  lemma StartHalts(s: State, name: Name, active: bool)
    requires s.thread == Busy(Start, name, StartNamed(active)) && (!active ==> s.compute.Off?)
    ensures var s1 := s.(thread := Busy(Start, name, StartHalted), compute := Off);
            var s2 := s1.(thread := Busy(Start, name, StartWaiting), compute := Booting);
            if active
            then Next(s, StopCompute(true, true)) == Some(s1) && Next(s1, StartCompute(true, true)) == Some(s2)
            else Next(s, StartCompute(true, true)) == Some(s2)
  {
  }

  lemma StartsUpRun(s: State, name: Name, generation: Option<nat>, id: nat)
    requires s.thread == Busy(Start, name, Held(Prepared)) && s.leases == 0
    ensures Run(s, StartsUp(!s.compute.Off?, generation, id))
            == Some(s.(transitioning := true, compute := Booting, file := Selected(name, generation, id),
                       thread := Busy(Start, name, StartWaiting)))
  {
    var active := !s.compute.Off?;
    var s1 := s.(thread := Busy(Start, name, StartBegun), transitioning := true);
    var s2 := s1.(thread := Busy(Start, name, StartSeen(active)));
    var s3 := s2.(thread := Busy(Start, name, StartNamed(active)), file := Selected(name, generation, id));
    var s4 := s3.(thread := Busy(Start, name, StartHalted), compute := Off);
    var s5 := s4.(thread := Busy(Start, name, StartWaiting), compute := Booting);
    hide Next;
    StartNames(s, name, generation, id);
    StartHalts(s3, name, active);
    if active {
      RunsThrough([s, s1, s2, s3, s4, s5], StartsUp(true, generation, id));
    } else {
      RunsThrough([s, s1, s2, s3, s5], StartsUp(false, generation, id));
    }
  }

  predicate Waits(phase: Phase) {
    phase.StartWaiting? || phase.SwitchWaiting? || phase.BackWaiting?
  }

  function Settling(): seq<Event> {
    [Verify(true), Finish, Release]
  }

  /** What the compute has acknowledged is taken over, the routes are opened and the reservation is given back. */
  lemma SettlingRuns(s: State)
    requires s.thread.Busy? && Waits(s.thread.phase) && (s.thread.phase.BackWaiting? ==> s.file == s.memory)
    requires s.thread.operation != Stop
    requires s.leases == 0 && s.compute == Serving(s.file, true) && s.applied == Some(s.file)
    ensures Run(s, Settling())
            == Some(s.(memory := s.file, transitioning := false, blocked := false, thread := Resting,
                       reserved := s.reserved - multiset{s.thread.branch}))
  {
    var s1 := s.(memory := s.file, thread := s.thread.(phase := Finishing(true)));
    var s2 := s1.(thread := s.thread.(phase := Held(Idle)), transitioning := false, blocked := false);
    RunsThrough([s, s1, s2, s2.(thread := Resting, reserved := s.reserved - multiset{s.thread.branch})], Settling());
  }

  /** The primary serves this branch on this timeline, and routes are open. */
  function Serves(s: State, chosen: Selection<Timeline>): State {
    s.(memory := chosen, file := chosen, applied := Some(chosen), compute := Serving(chosen, true),
       transitioning := false, blocked := false, boxes := s.boxes - {chosen.branch})
  }

  /** The compute that has been started on the selection file comes up and is acknowledged. */
  lemma ComesUp(s: State)
    requires s.thread.Busy? && Waits(s.thread.phase) && (s.thread.phase.BackWaiting? ==> s.file == s.memory)
    requires s.thread.operation != Stop
    requires s.leases == 0 && s.compute.Booting?
    ensures Run(s, Boots() + Settling())
            == Some(s.(memory := s.file, compute := Serving(s.file, true), applied := Some(s.file),
                       transitioning := false, blocked := false, thread := Resting,
                       reserved := s.reserved - multiset{s.thread.branch}))
  {
    BootsRun(s);
    SettlingRuns(s.(compute := Serving(s.file, true), applied := Some(s.file)));
    RunBoth(s, Boots(), Settling());
  }

  function SwitchRun(name: Name, generation: Option<nat>, id: nat): seq<Event> {
    Takes(Switch, name) + SwitchesOver(generation, id) + (Boots() + Settling())
  }

  /**
   A switch to any branch can succeed, from every state in which no operation runs, nobody holds the lease and no
   connection to the branch is open, whatever the compute does and also if routes are closed: the primary comes to
   serve the branch, the branch's own compute is gone, and nothing else has changed.
   */
  lemma SwitchSucceeds(s: State, name: Name, generation: Option<nat>, id: nat)
    requires s.thread == Resting && s.leases == 0 && Count(s.active, name) == 0
    ensures Run(s, SwitchRun(name, generation, id)) == Some(Serves(s, Selected(name, generation, id)))
  {
    var taken := Taken(s, Switch, name);
    TakesRun(s, Switch, name);
    SwitchesOverRun(taken, generation, id);
    var started := Run(taken, SwitchesOver(generation, id)).value;
    ComesUp(started);
    RunBoth(s, Takes(Switch, name), SwitchesOver(generation, id));
    RunBoth(s, Takes(Switch, name) + SwitchesOver(generation, id), Boots() + Settling());
    assert s.reserved + multiset{name} - multiset{name} == s.reserved;
  }

  /** Stopping the primary opens the routes, to whatever does not need it. */
  lemma StopSucceeds(s: State, name: Name)
    requires s.thread == Resting && s.leases == 0 && !s.transitioning
    ensures Run(s, [Choose(Stop, name), Begin(Stop), StopCompute(true, true), Finish])
            == Some(s.(compute := Off, blocked := false))
  {
    var s1 := s.(thread := Busy(Stop, name, Chosen));
    var s2 := s.(thread := Busy(Stop, name, StopBegun), transitioning := true);
    var s3 := s2.(thread := Busy(Stop, name, Finishing(true)), compute := Off);
    RunsThrough([s, s1, s2, s3, s.(compute := Off, blocked := false)],
                [Choose(Stop, name), Begin(Stop), StopCompute(true, true), Finish]);
  }

  /** Back to where the reservation is, once a compute of the branch's own has been restarted, if one runs. */
  function ResetRun(name: Name, refresh: bool, generation: Option<nat>, id: nat): seq<Event> {
    [Choose(Reset, name), Reserve] + (if refresh then [FindBox, RestartBox] else [])
    + SwitchesOver(generation, id) + (Boots() + Settling())
  }

  lemma ResetTakes(s: State, refresh: bool)
    requires s.thread == Resting && s.leases == 0 && (refresh ==> s.memory.branch in s.boxes)
    ensures var name := s.memory.branch;
            Run(s, [Choose(Reset, name), Reserve] + if refresh then [FindBox, RestartBox] else [])
            == Some(s.(thread := Busy(Reset, name, Held(Idle)), reserved := s.reserved + multiset{name}))
  {
    var name := s.memory.branch;
    var s1 := s.(thread := Busy(Reset, name, Chosen));
    var s2 := s.(thread := Busy(Reset, name, Held(Idle)), reserved := s.reserved + multiset{name});
    var s3 := s2.(thread := Busy(Reset, name, Refreshing(true)));
    RunsThrough([s, s1, s2], [Choose(Reset, name), Reserve]);
    if refresh {
      assert s.boxes + {name} == s.boxes;
      RunsThrough([s2, s3, s2], [FindBox, RestartBox]);
      RunBoth(s, [Choose(Reset, name), Reserve], [FindBox, RestartBox]);
    } else {
      assert [Choose(Reset, name), Reserve] + [] == [Choose(Reset, name), Reserve];
    }
  }

  /** A reset of the branch that the primary serves moves it to another timeline of that branch. */
  lemma ResetSucceeds(s: State, refresh: bool, generation: Option<nat>, id: nat)
    requires s.thread == Resting && s.leases == 0 && (refresh ==> s.memory.branch in s.boxes)
    ensures var chosen := Selected(s.memory.branch, generation, id);
            Run(s, ResetRun(s.memory.branch, refresh, generation, id))
            == Some(s.(memory := chosen, file := chosen, applied := Some(chosen), compute := Serving(chosen, true),
                       transitioning := false, blocked := false))
  {
    var name := s.memory.branch;
    var first := [Choose(Reset, name), Reserve] + if refresh then [FindBox, RestartBox] else [];
    ResetTakes(s, refresh);
    var held := Run(s, first).value;
    SwitchesOverRun(held, generation, id);
    ComesUp(Run(held, SwitchesOver(generation, id)).value);
    RunBoth(s, first, SwitchesOver(generation, id));
    RunBoth(s, first + SwitchesOver(generation, id), Boots() + Settling());
    assert s.reserved + multiset{name} - multiset{name} == s.reserved;
  }

  /** A reset restarts the running compute of a branch that the primary does not serve. */
  lemma RefreshSucceeds(s: State, name: Name)
    requires s.thread == Resting && name in s.boxes && name != s.memory.branch
    ensures Run(s, [Choose(Reset, name), FindBox, RestartBox, Release]) == Some(s)
  {
    var s1 := s.(thread := Busy(Reset, name, Chosen));
    var s2 := s.(thread := Busy(Reset, name, Refreshing(false)));
    assert s.boxes + {name} == s.boxes;
    RunsThrough([s, s1, s2, s1, s], [Choose(Reset, name), FindBox, RestartBox, Release]);
  }

  // ----- The way back -----

  /** A switch that does not come up: the compute is stopped again and the previous selection is named and started. */
  function FallsBack(id: nat): seq<Event> {
    [Verify(false), StopCompute(true, true), Write(true, None, id), StartCompute(true, true)]
  }

  lemma FallsBackRun(s: State, name: Name, id: nat)
    requires s.thread == Busy(Switch, name, SwitchWaiting(true))
    ensures Run(s, FallsBack(id))
            == Some(s.(thread := Busy(Switch, name, BackWaiting), file := s.memory, compute := Booting))
  {
    var s1 := s.(thread := Busy(Switch, name, SwitchFailed(true)));
    var s2 := s1.(thread := Busy(Switch, name, SwitchUndo(true, true)), compute := Off);
    var s3 := s2.(thread := Busy(Switch, name, BackHalted), file := s.memory);
    var s4 := s3.(thread := Busy(Switch, name, BackWaiting), compute := Booting);
    Fails(s, name);
    GoesBack(s2, name, id);
    hide Next;
    RunsThrough([s, s1, s2, s3, s4], FallsBack(id));
  }

  lemma Fails(s: State, name: Name)
    requires s.thread == Busy(Switch, name, SwitchWaiting(true))
    ensures var s1 := s.(thread := Busy(Switch, name, SwitchFailed(true)));
            && Next(s, Verify(false)) == Some(s1)
            && Next(s1, StopCompute(true, true))
               == Some(s1.(thread := Busy(Switch, name, SwitchUndo(true, true)), compute := Off))
  {
  }

  lemma GoesBack(s: State, name: Name, id: nat)
    requires s.thread == Busy(Switch, name, SwitchUndo(true, true)) && s.compute == Off
    ensures var s1 := s.(thread := Busy(Switch, name, BackHalted), file := s.memory);
            && Next(s, Write(true, None, id)) == Some(s1)
            && Next(s1, StartCompute(true, true))
               == Some(s1.(thread := Busy(Switch, name, BackWaiting), compute := Booting))
  {
  }

  /** The same when the selection could not be written: the file still names what the manager remembers. */
  function TurnsBack(id: nat, generation: Option<nat>): seq<Event> {
    [Begin(Switch), Inspect(true), StopCompute(true, true), Write(false, generation, id), StartCompute(true, true)]
  }

  lemma TurnsBackRun(s: State, generation: Option<nat>, id: nat)
    requires MayBegin(s, Switch) && !s.compute.Off?
    ensures Run(s, TurnsBack(id, generation))
            == Some(s.(transitioning := true, compute := Booting, thread := s.thread.(phase := BackWaiting)))
  {
    var s1 := s.(thread := s.thread.(phase := SwitchBegun), transitioning := true);
    var s2 := s1.(thread := s.thread.(phase := SwitchSeen(true)));
    var s3 := s2.(thread := s.thread.(phase := SwitchHalted(true)), compute := Off);
    var s4 := s3.(thread := s.thread.(phase := BackHalted));
    var s5 := s4.(thread := s.thread.(phase := BackWaiting), compute := Booting);
    hide Next;
    SwitchHalts(s);
    Unwritten(s3, generation, id);
    RunsThrough([s, s1, s2, s3, s4, s5], TurnsBack(id, generation));
  }

  lemma Unwritten(s: State, generation: Option<nat>, id: nat)
    requires s.thread.Busy? && s.thread.phase == SwitchHalted(true) && s.compute == Off
    ensures var s1 := s.(thread := s.thread.(phase := BackHalted));
            && Next(s, Write(false, generation, id)) == Some(s1)
            && Next(s1, StartCompute(true, true))
               == Some(s1.(thread := s.thread.(phase := BackWaiting), compute := Booting))
  {
  }

  /** A switch that cannot write its selection brings the primary back up on what it served. */
  lemma UnwrittenSwitchGoesBack(s: State, name: Name, generation: Option<nat>, id: nat)
    requires s.thread == Resting && s.leases == 0 && Count(s.active, name) == 0 && !s.compute.Off?
    requires s.file == s.memory
    ensures Run(s, Takes(Switch, name) + TurnsBack(id, generation) + (Boots() + Settling()))
            == Some(s.(applied := Some(s.memory), compute := Serving(s.memory, true),
                       transitioning := false, blocked := false, boxes := s.boxes - {name}))
  {
    var taken := Taken(s, Switch, name);
    TakesRun(s, Switch, name);
    TurnsBackRun(taken, generation, id);
    ComesUp(Run(taken, TurnsBack(id, generation)).value);
    RunBoth(s, Takes(Switch, name), TurnsBack(id, generation));
    RunBoth(s, Takes(Switch, name) + TurnsBack(id, generation), Boots() + Settling());
    assert s.reserved + multiset{name} - multiset{name} == s.reserved;
  }

  function BackRun(name: Name, generation: Option<nat>, id: nat): seq<Event> {
    Takes(Switch, name) + SwitchesOver(generation, id) + FallsBack(id) + (Boots() + Settling())
  }

  /**
   From the same states with the compute up, a switch may fail and be undone: the primary serves again what the
   manager remembers, and routes are open.
   */
  lemma FailedSwitchGoesBack(s: State, name: Name, generation: Option<nat>, id: nat)
    requires s.thread == Resting && s.leases == 0 && Count(s.active, name) == 0 && !s.compute.Off?
    ensures Run(s, BackRun(name, generation, id))
            == Some(s.(file := s.memory, applied := Some(s.memory), compute := Serving(s.memory, true),
                       transitioning := false, blocked := false, boxes := s.boxes - {name}))
  {
    var taken := Taken(s, Switch, name);
    TakesRun(s, Switch, name);
    SwitchesOverRun(taken, generation, id);
    var started := Run(taken, SwitchesOver(generation, id)).value;
    FallsBackRun(started, name, id);
    ComesUp(Run(started, FallsBack(id)).value);
    var over := Takes(Switch, name) + SwitchesOver(generation, id);
    RunBoth(s, Takes(Switch, name), SwitchesOver(generation, id));
    RunBoth(s, over, FallsBack(id));
    RunBoth(s, over + FallsBack(id), Boots() + Settling());
    assert s.reserved + multiset{name} - multiset{name} == s.reserved;
  }

  function StartRun(name: Name, active: bool, generation: Option<nat>, id: nat): seq<Event> {
    Takes(Start, name) + StartsUp(active, generation, id) + (Boots() + Settling())
  }

  /** Starting the primary, be it up or down, makes it serve the branch that is selected. */
  lemma StartSucceeds(s: State, generation: Option<nat>, id: nat)
    requires s.thread == Resting && s.leases == 0 && Count(s.active, s.memory.branch) == 0
    ensures Run(s, StartRun(s.memory.branch, !s.compute.Off?, generation, id))
            == Some(Serves(s, Selected(s.memory.branch, generation, id)))
  {
    var name, active := s.memory.branch, !s.compute.Off?;
    var taken := Taken(s, Start, name);
    TakesRun(s, Start, name);
    StartsUpRun(taken, name, generation, id);
    var started := Run(taken, StartsUp(active, generation, id)).value;
    ComesUp(started);
    RunBoth(s, Takes(Start, name), StartsUp(active, generation, id));
    RunBoth(s, Takes(Start, name) + StartsUp(active, generation, id), Boots() + Settling());
    assert s.reserved + multiset{name} - multiset{name} == s.reserved;
  }

  /** A client of the branch that the primary has come to serve. */
  lemma ServesClient(s: State, chosen: Selection<Timeline>, c: nat)
    requires Owned(chosen) && s.reserved == multiset{} && c !in s.clients
    ensures var served, client := Serves(s, chosen),
                                  Client(chosen.branch, chosen.timeline, Proxying(false), Unlock, 1, 1);
            Run(served, Visits(c, chosen.branch, chosen.timeline)) == Some(With(served, c, client, s.leases))
  {
    ClientIsProxied(Serves(s, chosen), c, chosen.branch, chosen.timeline);
  }

  /** A start, a client of the selected branch, a switch, and a client of the branch that is selected then. */
  function Tour(first: Selection<Timeline>, second: Selection<Timeline>, c: nat, other: nat): seq<Event> {
    StartRun(first.branch, false, first.generation, first.timeline.id) + Visits(c, first.branch, first.timeline)
    + SwitchRun(second.branch, second.generation, second.timeline.id)
    + Visits(other, second.branch, second.timeline)
  }

  /**
   From every clean state the primary can be started and then serves a client of the selected branch, who is proxied
   to it with the lease given back; and from there it can be switched to any other branch and serves a client of that
   one too, while the first one is still connected.
   */
  lemma PrimaryServes(start: State, c: nat, other: nat, name: Name, generation: Option<nat>, id: nat)
    requires Clean(start) && c != other && name != start.memory.branch
    ensures var first, second := Selected(start.memory.branch, generation, id), Selected(name, generation, id);
            var started := Run(start, StartRun(first.branch, false, generation, id)
                                      + Visits(c, first.branch, first.timeline));
            var switched := Run(start, Tour(first, second, c, other));
            && started.Some? && ServedBy(started.value, c, first)
            && switched.Some? && ServedBy(switched.value, other, second)
            && switched.value.clients == started.value.clients[other := switched.value.clients[other]]
            && switched.value.clients.Keys == {c, other}
            && Open(switched.value) && switched.value.reserved == multiset{}
  {
    var first, second := Selected(start.memory.branch, generation, id), Selected(name, generation, id);
    var client := Client(first.branch, first.timeline, Proxying(false), Unlock, 1, 1);
    StartSucceeds(start, generation, id);
    ServesClient(start, first, c);
    RunBoth(start, StartRun(first.branch, false, generation, id), Visits(c, first.branch, first.timeline));
    var s := With(Serves(start, first), c, client, start.leases);
    SwitchSucceeds(s, name, generation, id);
    ServesClient(s, second, other);
    var served := StartRun(first.branch, false, generation, id) + Visits(c, first.branch, first.timeline);
    RunBoth(start, served, SwitchRun(name, generation, id));
    RunBoth(start, served + SwitchRun(name, generation, id), Visits(other, name, second.timeline));
  }

  /**
   And then a further client of the first branch, which the primary has left, gets through to a compute of that
   branch's own.
   */
  lemma HandedOver(start: State, c: nat, other: nat, third: nat, name: Name, generation: Option<nat>, id: nat)
    requires Clean(start) && c != other && third !in {c, other} && Fold(name) != Fold(start.memory.branch)
    ensures var first, second := Selected(start.memory.branch, generation, id), Selected(name, generation, id);
            var end := Run(start, Tour(first, second, c, other) + VisitsOwn(third, first.branch, first.timeline));
            && end.Some? && ServedBy(end.value, other, second) && first.branch in end.value.boxes
            && third in end.value.clients && end.value.clients[third].stage == Proxying(true)
            && !HoldsLease(end.value.clients[third])
  {
    var first, second := Selected(start.memory.branch, generation, id), Selected(name, generation, id);
    PrimaryServes(start, c, other, name, generation, id);
    var switched := Run(start, Tour(first, second, c, other)).value;
    OwnClientIsProxied(switched, third, first.branch, first.timeline);
    RunBoth(start, Tour(first, second, c, other), VisitsOwn(third, first.branch, first.timeline));
  }

  /** The compute serves this selection, which the manager remembers, and a client of it has come through. */
  predicate ServedBy(s: State, c: nat, chosen: Selection<Timeline>) {
    && s.compute == Serving(chosen, true) && s.memory == chosen && s.leases == 0
    && c in s.clients && s.clients[c].stage == Proxying(false) && s.clients[c].timeline == chosen.timeline
    && !HoldsLease(s.clients[c])
  }
}
