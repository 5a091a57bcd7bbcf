/**
 The handoff of a branch between the primary compute and its own, lazily started compute.  One thread
 runs the operations, any number of clients connect, and the primary compute boots and reboots on its
 own; every event below is one indivisible step of one of them.

 A timeline belongs to one branch, so two computes can only collide on a timeline if the primary has
 come to serve a branch whose own compute runs.
 */
module PrimaryHandoff {
  import opened Options
  import opened Selections

  datatype Timeline = Timeline(owner: Name, id: nat)

  datatype Operation = Start | Stop | Switch | Reset

  /** How far the reserved branch's own compute has been cleared away. */
  datatype Preparation = Idle | Drained | Prepared

  /** Where an operation is; from `StartBegun` on it is inside a route transition. */
  datatype Phase =
    | Chosen
    | Held(step: Preparation)
    | Refreshing(held: bool)
    | StartBegun | StartSeen(active: bool) | StartNamed(active: bool) | StartHalted | StartWaiting | StartFailed
    | SwitchBegun | SwitchSeen(active: bool) | SwitchHalted(active: bool) | SwitchNamed(active: bool)
    | SwitchWaiting(active: bool) | SwitchFailed(active: bool) | SwitchUndo(active: bool, stopped: bool)
    | BackHalted | BackWaiting
    | StopBegun
    | Finishing(stable: bool)

  datatype Thread = Resting | Busy(operation: Operation, branch: Name, phase: Phase)

  /**
   Where the connection of a client is.  It takes the route lease when it asks for its route.  An error while
   the route is looked up gives the lease back at once and hands out a function that releases nothing; in every
   other case the function that gives it back is called by whoever asked.  A connection that is dialled or
   proxied lives on after that, to the branch's own compute or to the primary.
   */
  datatype Stage =
    | Arrived | Leased | Asked(ready: bool) | Refused | Lazy | Backed | Dialing | Proxying(own: bool) | Ended

  datatype Releaser = Nothing | Unlock

  datatype Client = Client(
    name: Name,
    timeline: Timeline,
    stage: Stage,
    release: Releaser,
    taken: nat,    // how often this client has taken the route lease
    given: nat)    // and how often it has given it back

  datatype State = State(
    memory: Selection<Timeline>,             // branch, attachment and generation that the manager has verified
    file: Selection<Timeline>,               // the selection file
    applied: Option<Selection<Timeline>>,    // the applied file
    compute: Compute<Timeline>,
    transitioning: bool,
    blocked: bool,
    reserved: multiset<Name>,
    leases: int,                   // the readers of the route lock
    boxes: set<Name>,              // the branches whose own compute runs
    thread: Thread,
    clients: map<nat, Client>,
    active: map<Name, nat>)        // how many connections to a branch the controller believes open

  predicate HoldsLease(client: Client) {
    client.taken > client.given
  }

  predicate InTransition(phase: Phase) {
    !phase.Chosen? && !phase.Held? && !phase.Refreshing?
  }

  // ----- Steps of a client -----

  predicate IsReserved(reserved: multiset<Name>, name: Name) {
    exists r | r in reserved :: Fold(r) == Fold(name)
  }

  /** The route that a client of a branch is granted, or its refusal. */
  function Route(s: State, name: Name, timeline: Timeline, ready: bool): Stage {
    if s.transitioning || s.blocked || IsReserved(s.reserved, name) then Refused
    else if s.applied == None || !Matches(s.applied.value, s.memory) then Refused
    else if s.applied.value.timeline != timeline then
      if Fold(s.applied.value.branch) == Fold(name) then Refused else Lazy
    else if ready then Backed else Refused
  }

  function Becomes(s: State, c: nat, client: Client): State {
    s.(clients := s.clients[c := client])
  }

  /** A step of a client, and by how much it changes the readers of the route lock. */
  datatype Move = Move(client: Client, readers: int)

  function Stay(client: Client, stage: Stage): Move {
    Move(client.(stage := stage), 0)
  }

  /** An error while the route is looked up. */
  function FailLookup(client: Client): Move {
    Move(client.(stage := Refused, release := Nothing, given := client.given + 1), -1)
  }

  /** Calls the function that came with the route. */
  function CallRelease(client: Client, stage: Stage): Move {
    match client.release
    case Nothing => Stay(client, stage)
    case Unlock => Move(client.(stage := stage, given := client.given + 1), -1)
  }

  /**
   What a connection does next: it takes the lease, looks up the compute's status and the applied file, and
   has its route decided; a refused one releases and ends, a lazy one releases after it has tried to start its
   compute, and one that the primary backs after it has dialled.  A lazy one goes on only if its compute is up.
   */
  function MoveOf(s: State, client: Client, done: bool): Move
    requires !client.stage.Ended?
  {
    match client.stage
    case Arrived => if done then Move(client.(stage := Leased, taken := client.taken + 1), 1) else Stay(client, Ended)
    case Leased => if done then Stay(client, Asked(s.compute.Serving? && s.compute.ready)) else FailLookup(client)
    case Asked(ready) =>
      if done then Stay(client.(release := Unlock), Route(s, client.name, client.timeline, ready))
      else FailLookup(client)
    case Refused => CallRelease(client, Ended)
    case Lazy => CallRelease(client, if done && client.name in s.boxes then Dialing else Ended)
    case Backed => CallRelease(client, if done then Proxying(false) else Ended)
    case Dialing => Stay(client, if done && client.name in s.boxes then Proxying(true) else Ended)
    case Proxying(_) => Stay(client, Ended)
  }

  function Count(active: map<Name, nat>, name: Name): nat {
    if name in active then active[name] else 0
  }

  function CountUp(active: map<Name, nat>, name: Name): map<Name, nat> {
    active[name := Count(active, name) + 1]
  }

  /** The last connection, or one whose count was discarded meanwhile, takes the whole count with it. */
  function CountDown(active: map<Name, nat>, name: Name): map<Name, nat> {
    if Count(active, name) > 1 then active[name := Count(active, name) - 1] else active - {name}
  }

  function OnClient(s: State, c: nat, done: bool): State
    requires c in s.clients && !s.clients[c].stage.Ended?
  {
    var move := MoveOf(s, s.clients[c], done);
    Becomes(s, c, move.client).(
      leases := s.leases + move.readers,
      active := if move.client.stage.Ended? then CountDown(s.active, move.client.name) else s.active)
  }

  function OnArrive(s: State, c: nat, client: Client): State {
    Becomes(s, c, client).(active := CountUp(s.active, client.name))
  }

  // ----- Steps of the outside world -----

  function OnCompute(s: State): Option<State> {
    match s.compute
    case Off => None
    case Booting => Some(s.(compute := Cleared, applied := None))
    case Cleared => Some(s.(compute := Loaded(s.file)))
    case Loaded(x) => Some(s.(compute := Serving(x, false), applied := Some(x)))
    case Serving(x, ready) => Some(s.(compute := Serving(x, !ready)))
  }

  // ----- Steps of an operation -----

  function At(s: State, phase: Phase): State
    requires s.thread.Busy?
  {
    s.(thread := s.thread.(phase := phase))
  }

  /** A reset reserves only the branch that the primary has selected, and stopping reserves nothing. */
  predicate MayReserve(s: State) {
    && s.thread.Busy? && s.thread.phase.Chosen? && s.leases == 0
    && s.thread.operation != Stop && (s.thread.operation == Reset ==> s.thread.branch == s.memory.branch)
  }

  /** The branch's own compute is not touched while the controller counts an open connection to the branch. */
  predicate MayDrain(s: State) {
    s.thread.Busy? && s.thread.phase.Held? && Count(s.active, s.thread.branch) == 0
  }

  /** A refresh goes on only when it finds the branch's compute running. */
  predicate MayRefresh(s: State) {
    && s.thread.Busy? && s.thread.operation == Reset && s.thread.branch in s.boxes
    && (s.thread.phase.Held? || (s.thread.phase.Chosen? && s.thread.branch != s.memory.branch))
  }

  /** A reset switches, and after a failure switches back, whether or not the preparation succeeded. */
  predicate MayBegin(s: State, transition: Operation) {
    && s.thread.Busy? && s.leases == 0
    && match s.thread.operation
       case Start => transition == Start && s.thread.phase == Held(Prepared)
       case Stop => transition == Stop && s.thread.phase == Chosen
       case Switch => transition == Switch && s.thread.phase == Held(Prepared)
       case Reset => transition == Switch && s.thread.phase.Held?
  }

  function Opening(transition: Operation): Phase {
    match transition case Start => StartBegun case Stop => StopBegun case _ => SwitchBegun
  }

  /** The end of an operation: an open reservation is given back first. */
  function OnRelease(s: State): Option<State>
    requires s.thread.Busy?
  {
    match s.thread.phase
    case Chosen => Some(Rest(s, s.reserved))
    case Held(_) => if s.leases == 0 then Some(Rest(s, s.reserved - multiset{s.thread.branch})) else None
    case Refreshing(held) => Some(At(s, if held then Held(Idle) else Chosen))
    case _ => None
  }

  function Rest(s: State, reserved: multiset<Name>): State {
    s.(thread := Resting, reserved := reserved)
  }

  // ----- Steps inside a transition -----

  function AfterInspect(phase: Phase, active: bool, done: bool): (next: Option<Phase>)
    ensures next.Some? ==> InTransition(next.value)
  {
    match phase
    case StartBegun => Some(if done then StartSeen(active) else Finishing(false))
    case SwitchBegun => Some(if done then SwitchSeen(active) else Finishing(false))
    case _ => None
  }

  /** The state at the next phase, if there is one. */
  function Onward(s: State, next: Option<Phase>): Option<State>
    requires s.thread.Busy?
  {
    match next case None => None case Some(phase) => Some(At(s, phase))
  }

  function OnInspect(s: State, done: bool): Option<State>
    requires s.thread.Busy?
  {
    Onward(s, AfterInspect(s.thread.phase, !s.compute.Off?, done))
  }

  function Named(s: State, generation: Option<nat>, id: nat): State
    requires s.thread.Busy?
  {
    s.(file := Selection(generation, s.thread.branch, Timeline(s.thread.branch, id)))
  }

  function OnWrite(s: State, done: bool, generation: Option<nat>, id: nat): Option<State>
    requires s.thread.Busy?
  {
    match s.thread.phase
    case StartSeen(active) =>
      Some(if done then At(Named(s, generation, id), StartNamed(active)) else At(s, Finishing(false)))
    case SwitchHalted(active) =>
      Some(if done then At(Named(s, generation, id), SwitchNamed(active))
           else At(s, if active then BackHalted else Finishing(true)))
    case SwitchUndo(active, stopped) =>
      Some(if !done then At(s, Finishing(false))
           else At(s.(file := s.memory), if !stopped then Finishing(false)
                                         else if active then BackHalted else Finishing(true)))
    case _ => None
  }

  function AfterStop(phase: Phase, done: bool): (next: Option<Phase>)
    ensures next.Some? ==> InTransition(next.value)
  {
    match phase
    case StartNamed(active) => if active then Some(if done then StartHalted else Finishing(false)) else None
    case StartFailed => Some(Finishing(false))
    case StopBegun => Some(Finishing(done))
    case SwitchSeen(active) => Some(if done then SwitchHalted(active) else Finishing(false))
    case SwitchFailed(active) => Some(SwitchUndo(active, done))
    case _ => None
  }

  function OnStopCompute(s: State, done: bool, effect: bool): Option<State>
    requires s.thread.Busy?
  {
    Onward(if done || effect then s.(compute := Off) else s, AfterStop(s.thread.phase, done))
  }

  function AfterStart(phase: Phase, done: bool): (next: Option<Phase>)
    ensures next.Some? ==> InTransition(next.value)
  {
    match phase
    case StartNamed(active) => if active then None else Some(if done then StartWaiting else StartFailed)
    case StartHalted => Some(if done then StartWaiting else StartFailed)
    case SwitchNamed(active) => Some(if done then SwitchWaiting(active) else SwitchFailed(active))
    case BackHalted => Some(if done then BackWaiting else Finishing(false))
    case _ => None
  }

  function OnStartCompute(s: State, done: bool, effect: bool): Option<State>
    requires s.thread.Busy?
  {
    Onward(if (done || effect) && s.compute.Off? then s.(compute := Booting) else s, AfterStart(s.thread.phase, done))
  }

  /** What a wait for the primary looks for: the compute is ready and the applied file acknowledges the selection. */
  predicate Verified(s: State, expected: Selection<Timeline>) {
    s.compute.Serving? && s.compute.ready && s.applied.Some? && Matches(s.applied.value, expected)
  }

  function OnVerify(s: State, done: bool): Option<State>
    requires s.thread.Busy?
  {
    match s.thread.phase
    case StartWaiting =>
      if !done then Some(At(s, StartFailed))
      else if Verified(s, s.file) then Some(At(s.(memory := s.file), Finishing(true))) else None
    case SwitchWaiting(active) =>
      if !done then Some(At(s, SwitchFailed(active)))
      else if Verified(s, s.file) then Some(At(s.(memory := s.file), Finishing(true))) else None
    case BackWaiting =>
      if !done then Some(At(s, Finishing(false)))
      else if Verified(s, s.memory) then Some(At(s, Finishing(true))) else None
    case _ => None
  }

  function OnFinish(s: State, stable: bool): State
    requires s.thread.Busy?
  {
    var open := s.(transitioning := false, blocked := !stable);
    if s.thread.operation == Stop then open.(thread := Resting) else At(open, Held(Idle))
  }

  // ----- One step of the whole -----

  /**
   Forget is the listener of a branch being stopped, when the branch is unpublished, deleted or fails to be
   published: the count of its connections goes, the connections stay.  So does the branch's compute, if the
   unpublishing fails after that; otherwise StopBox follows.
   */
  datatype Event =
    | Arrive(c: nat, name: Name, timeline: Timeline)
    | Proceed(c: nat, done: bool)
    | StartBox(c: nat)
    | Forget(name: Name)
    | StopBox(name: Name)
    | Reboot
    | Die
    | Boot
    | Choose(operation: Operation, name: Name)
    | Reserve
    | Drain
    | Prepare(done: bool)
    | FindBox
    | RestartBox
    | Begin(transition: Operation)
    | Inspect(done: bool)
    | StopCompute(done: bool, effect: bool)
    | Write(done: bool, generation: Option<nat>, id: nat)
    | StartCompute(done: bool, effect: bool)
    | Verify(done: bool)
    | Finish
    | Release

  function When(enabled: bool, s: State): Option<State> {
    if enabled then Some(s) else None
  }

  /** The state after an event, or nothing when the event cannot happen. */
  function Next(s: State, e: Event): Option<State> {
    match e
    case Arrive(c, name, timeline) =>
      When(c !in s.clients && timeline.owner == name, OnArrive(s, c, Client(name, timeline, Arrived, Nothing, 0, 0)))
    case Proceed(c, done) =>
      if c in s.clients && !s.clients[c].stage.Ended? then Some(OnClient(s, c, done)) else None
    case StartBox(c) =>
      if c in s.clients && s.clients[c].stage.Lazy? then Some(s.(boxes := s.boxes + {s.clients[c].name})) else None
    case Forget(name) => When(s.thread == Resting, s.(active := s.active - {name}))
    case StopBox(name) => Some(s.(boxes := s.boxes - {name}))
    case Reboot => When(!s.compute.Off?, s.(compute := Booting))
    case Die => Some(s.(compute := Off))
    case Boot => OnCompute(s)
    case Choose(operation, name) =>
      When(s.thread == Resting && (operation == Start ==> name == s.memory.branch),
          s.(thread := Busy(operation, name, Chosen)))
    case Reserve =>
      if MayReserve(s) then Some(At(s, Held(Idle)).(reserved := s.reserved + multiset{s.thread.branch})) else None
    case Drain => if MayDrain(s) then Some(At(s, Held(Drained))) else None
    case Prepare(done) =>
      if s.thread.Busy? && s.thread.phase == Held(Drained)
      then Some(if done then At(s, Held(Prepared)).(boxes := s.boxes - {s.thread.branch}) else At(s, Held(Idle)))
      else None
    case FindBox => if MayRefresh(s) then Some(At(s, Refreshing(s.thread.phase.Held?))) else None
    case RestartBox =>
      if s.thread.Busy? && s.thread.phase.Refreshing?
      then Some(At(s, if s.thread.phase.held then Held(Idle) else Chosen).(boxes := s.boxes + {s.thread.branch}))
      else None
    case Begin(transition) =>
      if MayBegin(s, transition) then Some(At(s, Opening(transition)).(transitioning := true)) else None
    case Inspect(done) => if s.thread.Busy? then OnInspect(s, done) else None
    case StopCompute(done, effect) => if s.thread.Busy? then OnStopCompute(s, done, effect) else None
    case Write(done, generation, id) => if s.thread.Busy? then OnWrite(s, done, generation, id) else None
    case StartCompute(done, effect) => if s.thread.Busy? then OnStartCompute(s, done, effect) else None
    case Verify(done) => if s.thread.Busy? then OnVerify(s, done) else None
    case Finish =>
      if s.thread.Busy? && s.thread.phase.Finishing? && s.leases == 0
      then Some(OnFinish(s, s.thread.phase.stable)) else None
    case Release => if s.thread.Busy? then OnRelease(s) else None
  }

  // ----- What every step keeps -----

  /** The branches whose timeline the primary writes, or will write if it reads the selection file as it stands. */
  function Writers(compute: Compute<Timeline>, file: Selection<Timeline>): set<Name> {
    match compute
    case Off => {}
    case Loaded(x) => {x.branch, file.branch}
    case Serving(x, _) => {x.branch, file.branch}
    case _ => {file.branch}
  }

  /** The primary never comes to write what a branch's own compute writes, nor does the selected branch have one. */
  predicate Apart(selected: Name, writers: set<Name>, boxes: set<Name>) {
    selected !in boxes && writers !! boxes
  }

  predicate Owned(x: Selection<Timeline>) {
    x.timeline.owner == x.branch
  }

  /** Selections name timelines of their branch, and a compute that serves has acknowledged what it serves. */
  predicate Acknowledged(memory: Selection<Timeline>, file: Selection<Timeline>,
                         applied: Option<Selection<Timeline>>, compute: Compute<Timeline>)
  {
    && Owned(memory) && Owned(file) && (applied.Some? ==> Owned(applied.value))
    && (compute.Loaded? || compute.Serving? ==> Owned(compute.selection))
    && (compute.Serving? ==> applied == Some(compute.selection))
  }

  /** The compute serves nothing but the selection file's content. */
  predicate Current(compute: Compute<Timeline>, file: Selection<Timeline>) {
    compute.Loaded? || compute.Serving? ==> compute.selection == file
  }

  /** The primary is down, or serves what is selected and will do so after any reboot. */
  predicate Steady(memory: Selection<Timeline>, file: Selection<Timeline>, compute: Compute<Timeline>) {
    compute.Off? || (Matches(file, memory) && Current(compute, file))
  }

  /** The lease is taken once and given back once, whichever way a connection goes. */
  predicate Accounted(client: Client) {
    match client.stage
    case Arrived => client.taken == 0 && client.given == 0
    case Leased => client.taken == 1 && client.given == 0
    case Asked(_) => client.taken == 1 && client.given == 0
    case Refused => client.taken == 1 && client.given == if client.release.Unlock? then 0 else 1
    case Lazy => client.taken == 1 && client.given == 0 && client.release.Unlock?
    case Backed => client.taken == 1 && client.given == 0 && client.release.Unlock?
    case Dialing => client.taken == 1 && client.given == 1
    case Proxying(_) => client.taken == 1 && client.given == 1
    case Ended => client.taken == client.given <= 1
  }

  predicate ClientOk(client: Client, closed: bool, reserved: multiset<Name>, memory: Selection<Timeline>) {
    && client.timeline.owner == client.name && Accounted(client)
    && match client.stage
       case Lazy => !closed && !IsReserved(reserved, client.name) && client.name != memory.branch
       case Backed => !closed && !IsReserved(reserved, client.name) && client.timeline == memory.timeline
       case _ => true
  }

  /** A granted route stays good for as long as its lease is held. */
  predicate Granted(clients: map<nat, Client>, closed: bool, reserved: multiset<Name>, memory: Selection<Timeline>) {
    forall c | c in clients :: ClientOk(clients[c], closed, reserved, memory)
  }

  function Holders(clients: map<nat, Client>): set<nat> {
    set c | c in clients && HoldsLease(clients[c])
  }

  predicate Balanced(leases: int, clients: map<nat, Client>) {
    leases == |Holders(clients)|
  }

  predicate PhaseOk(s: State, operation: Operation, b: Name, phase: Phase) {
    match phase
    case Chosen => operation == Start ==> b == s.memory.branch
    case Held(step) =>
      && operation != Stop && (step.Prepared? ==> b !in s.boxes)
      && (operation == Start || operation == Reset ==> b == s.memory.branch)
    case Refreshing(held) => !held && operation == Reset && b != s.memory.branch && b !in Writers(s.compute, s.file)
    case StartBegun => b == s.memory.branch
    case StartSeen(active) => b == s.memory.branch && (!active ==> s.compute.Off?)
    case StartNamed(active) => b == s.memory.branch && s.file.branch == b && (!active ==> s.compute.Off?)
    case StartHalted => b == s.memory.branch && s.file.branch == b && s.compute.Off?
    case StartWaiting => b == s.memory.branch && s.file.branch == b && Current(s.compute, s.file)
    case StartFailed => b == s.memory.branch
    case SwitchBegun => b !in s.boxes
    case SwitchSeen(active) => b !in s.boxes && if active then s.file.branch !in s.boxes else s.compute.Off?
    case SwitchHalted(active) => b !in s.boxes && s.compute.Off? && (active ==> s.file.branch !in s.boxes)
    case SwitchNamed(_) => b !in s.boxes && s.compute.Off? && s.file.branch == b
    case SwitchWaiting(_) => b !in s.boxes && Current(s.compute, s.file) && s.file.branch == b
    case SwitchFailed(_) => true
    case SwitchUndo(_, stopped) => stopped ==> s.compute.Off?
    case BackHalted => s.compute.Off? && s.file.branch !in s.boxes
    case BackWaiting => Current(s.compute, s.file)
    case StopBegun => operation == Stop
    case Finishing(stable) => stable ==> Steady(s.memory, s.file, s.compute)
  }

  function Reservation(operation: Operation, b: Name, phase: Phase): multiset<Name> {
    if phase.Chosen? || phase.Refreshing? || operation == Stop then multiset{} else multiset{b}
  }

  predicate ThreadOk(s: State) {
    match s.thread
    case Resting => !s.transitioning && s.reserved == multiset{}
    case Busy(operation, b, phase) =>
      && s.transitioning == InTransition(phase)
      && s.reserved == Reservation(operation, b, phase)
      && (InTransition(phase) && (operation == Start || operation == Reset) ==> b == s.memory.branch)
      && PhaseOk(s, operation, b, phase)
  }

  predicate Inv(s: State) {
    var selected, writers, closed := s.memory.branch, Writers(s.compute, s.file), s.transitioning || s.blocked;
    && Apart(selected, writers, s.boxes)
    && Acknowledged(s.memory, s.file, s.applied, s.compute)
    && (!closed ==> Steady(s.memory, s.file, s.compute))
    && Granted(s.clients, closed, s.reserved, s.memory)
    && Balanced(s.leases, s.clients)
    && ThreadOk(s)
  }

  // ----- Clients -----

  lemma HoldersOf(clients: map<nat, Client>, c: nat, client: Client)
    ensures HoldsLease(client) ==> Holders(clients[c := client]) == Holders(clients) + {c}
    ensures !HoldsLease(client) ==> Holders(clients[c := client]) == Holders(clients) - {c}
    ensures c in Holders(clients) <==> c in clients && HoldsLease(clients[c])
  {
  }

  /** The lock's writers wait for every lease: then no route is granted. */
  lemma NoLeasesNoGrants(clients: map<nat, Client>, closed: bool, reserved: multiset<Name>, memory: Selection<Timeline>,
                         closed': bool, reserved': multiset<Name>, memory': Selection<Timeline>)
    requires Balanced(0, clients) && Granted(clients, closed, reserved, memory)
    ensures Granted(clients, closed', reserved', memory')
    ensures forall c | c in clients :: !HoldsLease(clients[c])
  {
    forall c | c in clients ensures !HoldsLease(clients[c]) && ClientOk(clients[c], closed', reserved', memory') {
      HoldersOf(clients, c, clients[c]);
      assert Holders(clients) == {};
      assert ClientOk(clients[c], closed, reserved, memory);
    }
  }

  /** Nor is one granted while routes are closed. */
  lemma ClosedNoGrants(clients: map<nat, Client>, reserved: multiset<Name>, memory: Selection<Timeline>,
                       closed': bool, reserved': multiset<Name>, memory': Selection<Timeline>)
    requires Granted(clients, true, reserved, memory)
    ensures Granted(clients, closed', reserved', memory')
  {
    forall c | c in clients ensures ClientOk(clients[c], closed', reserved', memory') {
      assert ClientOk(clients[c], true, reserved, memory);
    }
  }

  lemma RouteIsGood(s: State, client: Client)
    requires Acknowledged(s.memory, s.file, s.applied, s.compute) && client.timeline.owner == client.name
    requires client.stage.Asked? && Accounted(client)
    ensures var route := Route(s, client.name, client.timeline, client.stage.ready);
            ClientOk(client.(stage := route, release := Unlock), s.transitioning || s.blocked, s.reserved, s.memory)
  {
  }

  /** One client's step keeps the count of leases: it adds what it takes and subtracts what it gives back. */
  lemma BalancedStep(s: State, c: nat, client: Client)
    requires Balanced(s.leases, s.clients) && c in s.clients
    requires Accounted(s.clients[c]) && Accounted(client)
    ensures Balanced(s.leases + (client.taken - s.clients[c].taken) - (client.given - s.clients[c].given),
                     s.clients[c := client])
  {
    HoldersOf(s.clients, c, client);
    if HoldsLease(client) == HoldsLease(s.clients[c]) {
      assert Holders(s.clients[c := client]) == Holders(s.clients);
    }
  }

  /** A step of a client adds to the readers what it takes and subtracts what it gives back. */
  lemma MoveIsAccounted(s: State, client: Client, done: bool)
    requires !client.stage.Ended?
    ensures var move := MoveOf(s, client, done);
            && move.readers == (move.client.taken - client.taken) - (move.client.given - client.given)
            && Follows(client, move.client)
  {
  }

  predicate Follows(client: Client, next: Client) {
    && next.name == client.name
    && (next.stage.Dialing? || next.stage.Proxying? ==>
        client.stage.Lazy? || client.stage.Backed? || client.stage.Dialing?)
  }

  lemma MoveIsOk(s: State, client: Client, done: bool)
    requires Inv(s) && !client.stage.Ended? && ClientOk(client, s.transitioning || s.blocked, s.reserved, s.memory)
    ensures ClientOk(MoveOf(s, client, done).client, s.transitioning || s.blocked, s.reserved, s.memory)
  {
    if client.stage.Asked? {
      RouteIsGood(s, client);
    }
  }

  /** The clients matter to the rest only through their routes and leases. */
  lemma ClientsKeep(s: State, clients: map<nat, Client>, leases: int, active: map<Name, nat>)
    requires Inv(s) && Granted(clients, s.transitioning || s.blocked, s.reserved, s.memory) && Balanced(leases, clients)
    ensures Inv(s.(clients := clients, leases := leases, active := active))
  {
  }

  lemma ProceedKeeps(s: State, c: nat, done: bool)
    requires Inv(s) && c in s.clients && !s.clients[c].stage.Ended?
    ensures Inv(OnClient(s, c, done))
  {
    var client, next := s.clients[c], MoveOf(s, s.clients[c], done).client;
    assert ClientOk(client, s.transitioning || s.blocked, s.reserved, s.memory);
    MoveIsAccounted(s, client, done);
    MoveIsOk(s, client, done);
    BalancedStep(s, c, next);
    ClientsKeep(s, s.clients[c := next], OnClient(s, c, done).leases, OnClient(s, c, done).active);
  }

  lemma ArriveKeeps(s: State, c: nat, client: Client)
    requires Inv(s) && c !in s.clients && client.timeline.owner == client.name && client.stage.Arrived?
        && Accounted(client)
    ensures Inv(OnArrive(s, c, client))
  {
    HoldersOf(s.clients, c, client);
    assert Holders(s.clients[c := client]) == Holders(s.clients);
    ClientsKeep(s, s.clients[c := client], s.leases, CountUp(s.active, client.name));
  }

  /** A branch's own compute is only started for a client whose route still keeps the primary away from it. */
  lemma StartBoxKeeps(s: State, c: nat)
    requires Inv(s) && c in s.clients && s.clients[c].stage.Lazy?
    ensures Inv(s.(boxes := s.boxes + {s.clients[c].name}))
  {
    assert ClientOk(s.clients[c], s.transitioning || s.blocked, s.reserved, s.memory);
    if s.thread.Busy? && s.thread.phase.Held? {
      assert s.thread.branch in s.reserved;
    }
  }

  // ----- The outside world -----

  lemma StopBoxKeeps(s: State, e: Event)
    requires Inv(s) && e.StopBox?
    ensures Inv(Next(s, e).value)
  {
  }

  lemma ForgetKeeps(s: State, e: Event)
    requires Inv(s) && e.Forget? && Next(s, e).Some?
    ensures Inv(Next(s, e).value)
  {
    ClientsKeep(s, s.clients, s.leases, s.active - {e.name});
  }

  lemma ComputeKeeps(s: State, compute: Compute<Timeline>, applied: Option<Selection<Timeline>>)
    requires Inv(s) && Acknowledged(s.memory, s.file, applied, compute)
    requires Writers(compute, s.file) <= Writers(s.compute, s.file)
    requires Current(s.compute, s.file) ==> Current(compute, s.file)
    requires s.compute.Off? ==> compute.Off?
    ensures Inv(s.(compute := compute, applied := applied))
  {
  }

  lemma BootShrinks(s: State)
    requires Acknowledged(s.memory, s.file, s.applied, s.compute) && OnCompute(s).Some?
    ensures var s' := OnCompute(s).value;
            && s' == s.(compute := s'.compute, applied := s'.applied)
            && Acknowledged(s.memory, s.file, s'.applied, s'.compute)
            && Writers(s'.compute, s.file) <= Writers(s.compute, s.file)
            && (Current(s.compute, s.file) ==> Current(s'.compute, s.file))
  {
  }

  lemma RebootKeeps(s: State, e: Event)
    requires Inv(s) && e.Reboot? && Next(s, e).Some?
    ensures Inv(Next(s, e).value)
  {
    ComputeKeeps(s, Booting, s.applied);
  }

  lemma DieKeeps(s: State, e: Event)
    requires Inv(s) && e.Die?
    ensures Inv(Next(s, e).value)
  {
    ComputeKeeps(s, Off, s.applied);
  }

  lemma BootKeeps(s: State, e: Event)
    requires Inv(s) && e.Boot? && Next(s, e).Some?
    ensures Inv(Next(s, e).value)
  {
    BootShrinks(s);
    ComputeKeeps(s, OnCompute(s).value.compute, OnCompute(s).value.applied);
  }

  // ----- Operations -----

  lemma ReserveKeeps(s: State)
    requires Inv(s) && MayReserve(s)
    ensures Inv(At(s, Held(Idle)).(reserved := s.reserved + multiset{s.thread.branch}))
  {
    var closed := s.transitioning || s.blocked;
    NoLeasesNoGrants(s.clients, closed, s.reserved, s.memory, closed, s.reserved + multiset{s.thread.branch}, s.memory);
  }

  lemma ReleaseKeeps(s: State)
    requires Inv(s) && s.thread.Busy? && OnRelease(s).Some?
    ensures Inv(OnRelease(s).value)
  {
    var s' := OnRelease(s).value;
    if s.thread.phase.Held? {
      var closed := s.transitioning || s.blocked;
      NoLeasesNoGrants(s.clients, closed, s.reserved, s.memory, closed, s'.reserved, s.memory);
    }
  }

  lemma ChooseKeeps(s: State, operation: Operation, name: Name)
    requires Inv(s) && s.thread == Resting && (operation == Start ==> name == s.memory.branch)
    ensures Inv(s.(thread := Busy(operation, name, Chosen)))
  {
  }

  lemma DrainKeeps(s: State, step: Preparation)
    requires Inv(s) && s.thread.Busy? && s.thread.phase.Held? && !step.Prepared?
    ensures Inv(At(s, Held(step)))
  {
  }

  lemma PrepareKeeps(s: State)
    requires Inv(s) && s.thread.Busy? && s.thread.phase == Held(Drained)
    ensures Inv(At(s, Held(Prepared)).(boxes := s.boxes - {s.thread.branch}))
  {
  }

  lemma RefreshKeeps(s: State)
    requires Inv(s) && MayRefresh(s)
    ensures Inv(At(s, Refreshing(s.thread.phase.Held?)))
  {
  }

  lemma RestartBoxKeeps(s: State)
    requires Inv(s) && s.thread.Busy? && s.thread.phase.Refreshing?
    ensures Inv(At(s, if s.thread.phase.held then Held(Idle) else Chosen).(boxes := s.boxes + {s.thread.branch}))
  {
  }

  // ----- Transitions -----

  lemma BeginKeeps(s: State, e: Event)
    requires Inv(s) && e.Begin? && Next(s, e).Some?
    ensures Inv(Next(s, e).value)
  {
    NoLeasesNoGrants(s.clients, s.transitioning || s.blocked, s.reserved, s.memory, true, s.reserved, s.memory);
  }

  function Moved(s: State, memory: Selection<Timeline>, file: Selection<Timeline>, compute: Compute<Timeline>,
                 phase: Phase): State
    requires s.thread.Busy?
  {
    s.(memory := memory, file := file, compute := compute, thread := s.thread.(phase := phase))
  }

  /**
   Inside a transition a step may change the selection, its file and the compute, so long as the boxes stay
   clear of them.
   */
  lemma MoveKeeps(s: State, memory: Selection<Timeline>, file: Selection<Timeline>, compute: Compute<Timeline>,
                  phase: Phase)
    requires Inv(s) && s.thread.Busy? && InTransition(s.thread.phase) && InTransition(phase)
    requires memory.branch !in s.boxes && Writers(compute, file) !! s.boxes
    requires s.thread.operation == Start || s.thread.operation == Reset ==> s.thread.branch == memory.branch
    requires Acknowledged(memory, file, s.applied, compute)
    requires PhaseOk(Moved(s, memory, file, compute, phase), s.thread.operation, s.thread.branch, phase)
    ensures Inv(Moved(s, memory, file, compute, phase))
  {
    ClosedNoGrants(s.clients, s.reserved, s.memory, true, s.reserved, memory);
  }

  /** A step that changes nothing but where the operation is. */
  lemma StayKeeps(s: State, phase: Phase)
    requires Inv(s) && s.thread.Busy? && InTransition(s.thread.phase) && InTransition(phase)
    requires PhaseOk(At(s, phase), s.thread.operation, s.thread.branch, phase)
    ensures Inv(At(s, phase))
  {
    MoveKeeps(s, s.memory, s.file, s.compute, phase);
  }

  lemma InspectKeeps(s: State, e: Event)
    requires Inv(s) && e.Inspect? && Next(s, e).Some?
    ensures Inv(Next(s, e).value)
  {
    if !e.done {
      StayKeeps(s, Finishing(false));
    } else if s.thread.phase.StartBegun? {
      StayKeeps(s, StartSeen(!s.compute.Off?));
    } else {
      StayKeeps(s, SwitchSeen(!s.compute.Off?));
    }
  }

  lemma FailedWriteKeeps(s: State, generation: Option<nat>, id: nat)
    requires Inv(s) && s.thread.Busy? && OnWrite(s, false, generation, id).Some?
    ensures Inv(OnWrite(s, false, generation, id).value)
  {
    match s.thread.phase {
      case SwitchHalted(active) => StayKeeps(s, if active then BackHalted else Finishing(true));
      case _ => StayKeeps(s, Finishing(false));
    }
  }

  lemma NameKeeps(s: State, generation: Option<nat>, id: nat, phase: Phase)
    requires Inv(s) && s.thread.Busy? && (s.thread.phase.StartSeen? || s.thread.phase.SwitchHalted?)
    requires phase == match s.thread.phase
                      case StartSeen(active) => StartNamed(active)
                      case _ => SwitchNamed(s.thread.phase.active)
    ensures Inv(At(Named(s, generation, id), phase))
  {
    assert s.thread.branch !in s.boxes;
    MoveKeeps(s, s.memory, Named(s, generation, id).file, s.compute, phase);
  }

  lemma UndoKeeps(s: State, phase: Phase)
    requires Inv(s) && s.thread.Busy? && s.thread.phase.SwitchUndo?
    requires phase == if !s.thread.phase.stopped then Finishing(false)
                      else if s.thread.phase.active then BackHalted else Finishing(true)
    ensures Inv(At(s.(file := s.memory), phase))
  {
    MoveKeeps(s, s.memory, s.memory, s.compute, phase);
  }

  lemma WriteKeeps(s: State, e: Event)
    requires Inv(s) && e.Write? && Next(s, e).Some?
    ensures Inv(Next(s, e).value)
  {
    if !e.done {
      FailedWriteKeeps(s, e.generation, e.id);
    } else {
      match s.thread.phase {
        case StartSeen(active) => NameKeeps(s, e.generation, e.id, StartNamed(active));
        case SwitchHalted(active) => NameKeeps(s, e.generation, e.id, SwitchNamed(active));
        case SwitchUndo(active, stopped) =>
          UndoKeeps(s, if !stopped then Finishing(false) else if active then BackHalted else Finishing(true));
      }
    }
  }

  lemma StopStepKeeps(s: State, done: bool)
    requires Inv(s) && s.thread.Busy? && OnStopCompute(s, done, false).Some? && (done ==> s.compute.Off?)
    ensures Inv(OnStopCompute(s, done, false).value)
  {
    assert s.(compute := s.compute) == s;
    match s.thread.phase {
      case StartNamed(_) => StayKeeps(s, if done then StartHalted else Finishing(false));
      case StartFailed => StayKeeps(s, Finishing(false));
      case StopBegun => StayKeeps(s, Finishing(done));
      case SwitchSeen(active) => StayKeeps(s, if done then SwitchHalted(active) else Finishing(false));
      case SwitchFailed(active) => StayKeeps(s, SwitchUndo(active, done));
    }
  }

  lemma StopComputeKeeps(s: State, e: Event)
    requires Inv(s) && e.StopCompute? && Next(s, e).Some?
    ensures Inv(Next(s, e).value)
  {
    if e.done || e.effect {
      ComputeKeeps(s, Off, s.applied);
      StopStepKeeps(s.(compute := Off), e.done);
    } else {
      StopStepKeeps(s, false);
    }
  }

  /** Starting the compute on the selection file as it stands. */
  lemma LaunchKeeps(s: State, compute: Compute<Timeline>, phase: Phase)
    requires Inv(s) && s.thread.Busy? && InTransition(s.thread.phase) && InTransition(phase)
        && s.file.branch !in s.boxes
    requires compute == s.compute || (s.compute.Off? && compute == Booting)
    requires PhaseOk(Moved(s, s.memory, s.file, compute, phase), s.thread.operation, s.thread.branch, phase)
    ensures Inv(Moved(s, s.memory, s.file, compute, phase))
  {
    MoveKeeps(s, s.memory, s.file, compute, phase);
  }

  predicate Launches(s: State, e: Event) {
    s.thread.Busy? && e.StartCompute? && Next(s, e).Some?
  }

  lemma StartLaunchKeeps(s: State, e: Event)
    requires Inv(s) && Launches(s, e) && (s.thread.phase.StartNamed? || s.thread.phase.StartHalted?)
    ensures Inv(Next(s, e).value)
  {
    LaunchKeeps(s, if e.done || e.effect then Booting else Off, if e.done then StartWaiting else StartFailed);
  }

  lemma SwitchLaunchKeeps(s: State, e: Event)
    requires Inv(s) && Launches(s, e) && s.thread.phase.SwitchNamed?
    ensures Inv(Next(s, e).value)
  {
    var active := s.thread.phase.active;
    LaunchKeeps(s, if e.done || e.effect then Booting else Off,
                if e.done then SwitchWaiting(active) else SwitchFailed(active));
  }

  lemma BackLaunchKeeps(s: State, e: Event)
    requires Inv(s) && Launches(s, e) && s.thread.phase.BackHalted?
    ensures Inv(Next(s, e).value)
  {
    LaunchKeeps(s, if e.done || e.effect then Booting else Off, if e.done then BackWaiting else Finishing(false));
  }

  lemma StartComputeKeeps(s: State, e: Event)
    requires Inv(s) && e.StartCompute? && Next(s, e).Some?
    ensures Inv(Next(s, e).value)
  {
    match s.thread.phase {
      case StartNamed(_) => StartLaunchKeeps(s, e);
      case StartHalted => StartLaunchKeeps(s, e);
      case SwitchNamed(_) => SwitchLaunchKeeps(s, e);
      case BackHalted => BackLaunchKeeps(s, e);
    }
  }

  /** Taking over what the compute has acknowledged. */
  lemma AdoptKeeps(s: State)
    requires Inv(s) && s.thread.Busy? && (s.thread.phase.StartWaiting? || s.thread.phase.SwitchWaiting?)
    requires Verified(s, s.file)
    ensures Inv(At(s.(memory := s.file), Finishing(true)))
  {
    MoveKeeps(s, s.file, s.file, s.compute, Finishing(true));
  }

  lemma BackVerifiedKeeps(s: State)
    requires Inv(s) && s.thread.Busy? && s.thread.phase.BackWaiting? && Verified(s, s.memory)
    ensures Inv(At(s, Finishing(true)))
  {
    StayKeeps(s, Finishing(true));
  }

  lemma VerifyKeeps(s: State, e: Event)
    requires Inv(s) && e.Verify? && Next(s, e).Some?
    ensures Inv(Next(s, e).value)
  {
    match s.thread.phase {
      case StartWaiting => if e.done { AdoptKeeps(s); } else { StayKeeps(s, StartFailed); }
      case SwitchWaiting(active) => if e.done { AdoptKeeps(s); } else { StayKeeps(s, SwitchFailed(active)); }
      case BackWaiting => if e.done { BackVerifiedKeeps(s); } else { StayKeeps(s, Finishing(false)); }
    }
  }

  lemma FinishKeeps(s: State, e: Event)
    requires Inv(s) && e.Finish? && Next(s, e).Some?
    ensures Inv(Next(s, e).value)
  {
    NoLeasesNoGrants(s.clients, true, s.reserved, s.memory, !s.thread.phase.stable, s.reserved, s.memory);
  }

  predicate OfTransition(e: Event) {
    e.Begin? || e.Inspect? || e.StopCompute? || e.Write? || e.StartCompute? || e.Verify? || e.Finish?
  }

  lemma TransitionKeeps(s: State, e: Event)
    requires Inv(s) && OfTransition(e) && Next(s, e).Some?
    ensures Inv(Next(s, e).value)
  {
    match e {
      case Begin(_) => BeginKeeps(s, e);
      case Inspect(_) => InspectKeeps(s, e);
      case StopCompute(_, _) => StopComputeKeeps(s, e);
      case Write(_, _, _) => WriteKeeps(s, e);
      case StartCompute(_, _) => StartComputeKeeps(s, e);
      case Verify(_) => VerifyKeeps(s, e);
      case Finish => FinishKeeps(s, e);
    }
  }

  predicate OfClient(e: Event) {
    e.Arrive? || e.Proceed? || e.StartBox?
  }

  lemma ClientKeeps(s: State, e: Event)
    requires Inv(s) && OfClient(e) && Next(s, e).Some?
    ensures Inv(Next(s, e).value)
  {
    match e {
      case Arrive(c, name, timeline) => ArriveKeeps(s, c, Client(name, timeline, Arrived, Nothing, 0, 0));
      case Proceed(c, done) => ProceedKeeps(s, c, done);
      case StartBox(c) => StartBoxKeeps(s, c);
    }
  }

  predicate OfWorld(e: Event) {
    e.StopBox? || e.Reboot? || e.Die? || e.Boot? || e.Forget?
  }

  lemma WorldKeeps(s: State, e: Event)
    requires Inv(s) && OfWorld(e) && Next(s, e).Some?
    ensures Inv(Next(s, e).value)
  {
    match e {
      case Forget(_) => ForgetKeeps(s, e);
      case StopBox(_) => StopBoxKeeps(s, e);
      case Reboot => RebootKeeps(s, e);
      case Die => DieKeeps(s, e);
      case Boot => BootKeeps(s, e);
    }
  }

  lemma OperationKeeps(s: State, e: Event)
    requires Inv(s) && !OfClient(e) && !OfTransition(e) && !OfWorld(e) && Next(s, e).Some?
    ensures Inv(Next(s, e).value)
  {
    match e {
      case Choose(operation, name) => ChooseKeeps(s, operation, name);
      case Reserve => ReserveKeeps(s);
      case Drain => DrainKeeps(s, Drained);
      case Prepare(done) => if done { PrepareKeeps(s); } else { DrainKeeps(s, Idle); }
      case FindBox => RefreshKeeps(s);
      case RestartBox => RestartBoxKeeps(s);
      case Release => ReleaseKeeps(s);
    }
  }

  lemma NextKeeps(s: State, e: Event)
    requires Inv(s) && Next(s, e).Some?
    ensures Inv(Next(s, e).value)
  {
    if OfTransition(e) {
      TransitionKeeps(s, e);
    } else if OfClient(e) {
      ClientKeeps(s, e);
    } else {
      if OfWorld(e) { WorldKeeps(s, e); } else { OperationKeeps(s, e); }
    }
  }

  // ----- Whole runs -----

  /** Nothing runs, nobody is connected, routes are open and the selection file holds what the manager has loaded. */
  predicate Clean(s: State) {
    && Owned(s.memory) && s.file == s.memory && (s.applied.Some? ==> Owned(s.applied.value)) && s.compute == Off
    && !s.transitioning && !s.blocked && s.reserved == multiset{} && s.leases == 0
    && s.boxes == {} && s.thread == Resting && s.clients == map[] && s.active == map[]
  }

  function Run(s: State, events: seq<Event>): Option<State>
    decreases |events|
  {
    if events == [] then Some(s)
    else match Next(s, events[0])
      case None => None
      case Some(s') => Run(s', events[1..])
  }

  lemma {:induction false} RunKeeps(s: State, events: seq<Event>)
    requires Inv(s) && Run(s, events).Some?
    ensures Inv(Run(s, events).value)
    decreases |events|
  {
    if events != [] {
      NextKeeps(s, events[0]);
      RunKeeps(Next(s, events[0]).value, events[1..]);
    }
  }

  lemma CleanIsSafe(s: State)
    requires Clean(s)
    ensures Inv(s)
  {
    assert Holders(s.clients) == {};
  }

  /** No branch's own compute runs on a timeline of the branch whose timeline the primary serves. */
  predicate SingleWriter(s: State) {
    s.compute.Loaded? || s.compute.Serving? ==> s.compute.selection.timeline.owner !in s.boxes
  }

  /**
   A client that holds a route holds it while routes are open, for a branch that is not reserved.  If the
   primary backs it, what the primary serves, or will read when it boots again, is the client's own timeline;
   if not, the primary keeps off that branch.
   */
  predicate RouteHeld(s: State, client: Client) {
    client.stage.Lazy? || client.stage.Backed? ==>
      && HoldsLease(client) && !s.transitioning && !s.blocked && !IsReserved(s.reserved, client.name)
      && if client.stage.Backed? then
           && client.name == s.memory.branch
           && (!s.compute.Off? ==> s.file.timeline == client.timeline)
           && (s.compute.Loaded? || s.compute.Serving? ==> s.compute.selection.timeline == client.timeline)
         else client.name != s.memory.branch && client.name !in Writers(s.compute, s.file)
  }

  /** The lease is given back exactly once: not before the connection is done with its route, and by its end. */
  predicate ReleasedOnce(client: Client) {
    && client.given <= client.taken <= 1
    && (client.stage.Dialing? || client.stage.Proxying? || client.stage.Ended? ==> client.given == client.taken)
    && (client.stage.Leased? || client.stage.Asked? || client.stage.Lazy? || client.stage.Backed? ==> client.given == 0)
  }

  /**
   Every run, whatever clients, operations, reboots and failures it interleaves: no timeline ever has two
   writers, every granted route is still good, every client gives its lease back exactly once and the lease
   count is that of the clients that have not, and while routes are open and the primary is up the selection
   file holds what is selected.
   */
  lemma EveryRunIsSafe(start: State, events: seq<Event>)
    requires Clean(start) && Run(start, events).Some?
    ensures var s := Run(start, events).value;
            && SingleWriter(s)
            && (forall c | c in s.clients :: RouteHeld(s, s.clients[c]))
            && (forall c | c in s.clients :: ReleasedOnce(s.clients[c]))
            && s.leases == |Holders(s.clients)|
            && (!s.transitioning && !s.blocked && !s.compute.Off? ==> Matches(s.file, s.memory))
  {
    CleanIsSafe(start);
    RunKeeps(start, events);
    var s := Run(start, events).value;
    forall c | c in s.clients ensures RouteHeld(s, s.clients[c]) && ReleasedOnce(s.clients[c]) {
      assert ClientOk(s.clients[c], s.transitioning || s.blocked, s.reserved, s.memory);
    }
  }

  /** A transition never begins while the start of a branch's own compute is in flight. */
  lemma NoStartInFlight(start: State, events: seq<Event>, transition: Operation)
    requires Clean(start) && Run(start, events + [Begin(transition)]).Some?
    ensures var s := Run(start, events + [Begin(transition)]).value;
            s.transitioning && forall c | c in s.clients ::
              !HoldsLease(s.clients[c]) && !s.clients[c].stage.Lazy? && !s.clients[c].stage.Backed?
  {
    RunSplit(start, events, Begin(transition));
    CleanIsSafe(start);
    RunKeeps(start, events);
    var s := Run(start, events).value;
    NoLeasesNoGrants(s.clients, s.transitioning || s.blocked, s.reserved, s.memory, true, s.reserved, s.memory);
    forall c | c in s.clients ensures !s.clients[c].stage.Lazy? && !s.clients[c].stage.Backed? {
      assert ClientOk(s.clients[c], true, s.reserved, s.memory);
    }
  }

  lemma {:induction false} RunSplit(s: State, events: seq<Event>, e: Event)
    requires Run(s, events + [e]).Some?
    ensures Run(s, events).Some? && Next(Run(s, events).value, e).Some?
    ensures Run(s, events + [e]) == Next(Run(s, events).value, e)
    decreases |events|
  {
    if events == [] {
      assert [e][1..] == [];
      assert events + [e] == [e];
    } else {
      assert (events + [e])[0] == events[0] && (events + [e])[1..] == events[1..] + [e];
      RunSplit(Next(s, events[0]).value, events[1..], e);
    }
  }
}
